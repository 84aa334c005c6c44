# hyoui: a verified model of its protocols, codecs and waiting loops

hyoui runs programs in terminal sessions that a daemon keeps alive, and serves them to
command-line clients and browsers. This project models eight of its cores in Dafny and proves
what they are for. `dafny verify dfyconfig.toml` checks all of it.

- **Shared access token** (`AuthShare`, `AuthRefresh`, `AuthLaws`, `AuthProgress`). Browser tabs share one token through a
  lock service and a broadcast channel. Any number of tabs and calls, every interleaving of
  script pieces, deliveries, lock grants, server answers, logins and clock ticks.
- **WebSocket bridge** (`Wakeup`, `Bridge`, `BridgeExact`, `BridgeRun`, `BridgeExit`, `BridgeLoss`,
  `BridgeInfo`, `BridgeBarrier`, `Writer`, and `Interleaving` for in-order merges). The self-pipe between reader
  task and bridge thread, the bridge loop with its resize and leader waits, what PTY output it
  forwards and loses, what the browser is told, and the writer task.
- **Single flight** (`SingleFlight`). Requests for one key share a run of the work.
- **Resize barrier** (`ResizeBarrier`). A one-way message acknowledged by the reply to a query
  behind it, against every schedule of a daemon that handles one connection in order.
- **Service definitions** (`Environment`, `ServiceText`, `ServiceFile`, `ReadBack`,
  `ReadBackUnit`, `ReadBackEmpty`, `PlistMeaning`, `UnitMeaning`, `Registration`, `PinnedEnv`). Two printers, the reader that
  takes the environment back out of either text, and the registration that decides from it.
- **Display codecs and `kill --wait`** (`Display`, `KillWait`, `DaemonExit`).
- **Screen text and polling** (`Screen`, `Polling`).
- **Endpoints** (`Endpoint`). `Text` holds the string functions all of these use.

Concurrent parts are step functions over states; a list of events is one interleaving, so a
lemma over every list of events is a statement about every run. Clocks, sockets, daemons and
the operating system are parameters: a list of ticks, deliveries or answers that may be
anything its type allows. Where the source runs a loop or updates an object, a method or a class does
the same and is proved equal to a function, and the properties are proved of that function.

Where comments and code of the repository disagree, the model follows the code:

- `fmt_argv` is described as quoting only arguments with an apostrophe; it quotes empty ones and
  those with a space, tab, line feed, carriage return or double quote.
- `Endpoint::parse` is described as refusing empty path components; it accepts them.
- `setSub` is described as reopening the channel; only the lock name changes.

Some expected properties hold only under a condition, which is then proved to be exact:
`AuthShare.AnnounceStaysSoundIff`, `ResizeBarrier.StaleReplyProvesNothing`,
`BridgeLoss.ForwardedIff`, `ReadBack.LaunchdReadBackIff`, `ReadBackUnit.SystemdReadBackIff`,
`ReadBackEmpty.EmptyReadBackIff`, `Registration.MarkerBlocksAgain` and `Endpoint.RpIdIsHostIff`.
Inputs where they fail are in `BridgeLoss.OutputCanBeLost`, `ReadBackEmpty.FieldCanForge`,
`Registration.MarkedDefinitionIsRefused`, `DaemonExit.UnexaminedSaysNothing` and
`Endpoint.UserInformationExamples`.

## Model

| member | source | states |
|---|---|---|
| `AuthShare.LockNameSeparatesSubs` | crates/hyoui-web/assets/auth-share.js:59-63 | within one endpoint two lock names are equal exactly if the subs are, an unknown sub included |
| `AuthShare.OnMessageIsSelective` | crates/hyoui-web/assets/auth-share.js:96-115 | an offer is adopted exactly if it is live and for the tab's sub or an unknown one, an ask is answered exactly with a live token, and anything not adopted leaves the tab as it was |
| `AuthShare.AnnounceStaysSoundIff` | crates/hyoui-web/assets/auth-share.js:152-160 | exactly which server or login answers leave a tab holding only tokens of its own sub |
| `AuthShare.TabObject.constructor` | crates/hyoui-web/assets/auth-share.js:35-54 | a new tab has the given sub, no token, and has posted and announced nothing |
| `AuthShare.TabObject.Post` | crates/hyoui-web/assets/auth-share.js:123-125 | a message is posted exactly if there is a channel |
| `AuthShare.TabObject.TakeIn` | crates/hyoui-web/assets/auth-share.js:85-90 | the fields after `adopt` are those of the specification, and listeners hear exactly what was adopted |
| `AuthShare.TabObject.Receive` | crates/hyoui-web/assets/auth-share.js:96-115 | the handler's new fields, posts and notifications, for asks and offers |
| `AuthShare.TabObject.TakeReply` | crates/hyoui-web/assets/auth-share.js:152-160 | a live token is held under the sub it names, announced to the listeners and offered on the channel; a dead one only names the sub |
| `AuthShare.TabObject.Enter` | crates/hyoui-web/assets/auth-share.js:192-212 | what each entry point drops before it starts |
| `AuthRefresh.ExclusionInEveryRun` | crates/hyoui-web/assets/auth-share.js:165-177 | in every run the lock table and the calls inside a lock agree, and no two calls under one lock name are in `refresh` together |
| `AuthRefresh.StepAdoptsOnlyLive` | crates/hyoui-web/assets/auth-share.js:85-116 | no step gives a tab an expired token, only the server or a login changes a known sub, and an offer for another sub changes nothing |
| `AuthRefresh.OwnershipInEveryRun` | crates/hyoui-web/assets/auth-share.js:85-160 | in every run whose server and login tokens arrive live with their sub, every tab holds, and every offer in flight carries, a token of the sub it is filed under |
| `AuthRefresh.OneRefreshInEveryRun` | crates/hyoui-web/assets/auth-share.js:132-177 | every run is either before its one refresh or after it, with the token issued in that run |
| `AuthRefresh.OneRefreshServesAll` | crates/hyoui-web/assets/auth-share.js:132-177 | however calls interleave, if messages arrive before an ask is cut off and refreshes succeed, at most one call reaches the server, never two at once, and when all have returned exactly one did and all returned its token |
| `AuthRefresh.NeverStuck` | crates/hyoui-web/assets/auth-share.js:132-177 | while some call has not returned, a lock grant, delivery, cut-off, resumption or server answer is possible |
| `AuthLaws.RefreshSpreads` | crates/hyoui-web/assets/auth-share.js:152-160 | a live token from the server is held by the tab, returned by the call, given to every asking call of the tab and offered to every other tab with a channel, once each; a dead one is neither held nor offered |
| `AuthLaws.LoginSpreads` | crates/hyoui-web/assets/auth-share.js:214-219 | the same for a login |
| `AuthLaws.RefusedRefreshReturnsNothing` | crates/hyoui-web/assets/auth-share.js:153-154 | a refused refresh changes no tab and posts nothing |
| `AuthLaws.AskIsAnswered` | crates/hyoui-web/assets/auth-share.js:99-104 | an ask is answered to every other tab exactly if the token is live |
| `AuthLaws.OfferIsTakenIff` | crates/hyoui-web/assets/auth-share.js:105-114 | an offer is taken, and its sub learned, exactly if it is live and not for another sub |
| `AuthLaws.StartIs` | crates/hyoui-web/assets/auth-share.js:192-212 | what each entry point drops, that only `ensure` returns at once and exactly with a live token, and under which lock it queues |
| `AuthLaws.AcquireIs` | crates/hyoui-web/assets/auth-share.js:171-173 | under the lock a live token is returned at once, otherwise every other tab is asked |
| `AuthLaws.UnansweredIs` | crates/hyoui-web/assets/auth-share.js:143-175 | an ask that nobody answers ends with the tab's own token if that is live, else at the server |
| `AuthProgress.ProgressUsesUp` | crates/hyoui-web/assets/auth-share.js:132-177 | each such event, deliveries included, makes a measure of the calls and messages left smaller |
| `AuthProgress.ProgressIsBounded` | crates/hyoui-web/assets/auth-share.js:132-177 | so no run of such events is longer than the measure at its start |
| `AuthProgress.AllReturnInTime` | crates/hyoui-web/assets/auth-share.js:132-177 | and from every state within a run at most that many of them bring every call back |
| `AuthProgress.StopsOnlyWhenAllReturned` | crates/hyoui-web/assets/auth-share.js:132-177 | a run where none of them is possible has brought every call back |
| `SingleFlight.OwnedInEveryRun` | crates/hyoui-web/src/single_flight.rs:43-65 | a slot always belongs to the one unfinished run of its key, a result only goes to its own channel, and runs are counted by joins that found no slot |
| `SingleFlight.FlightTheorem` | crates/hyoui-web/src/single_flight.rs:43-88 | one run per key at a time, a finishing run takes back its own slot, each waiter hears exactly its run's value or `Abandoned` exactly if it panicked and waits exactly while it has not published, work runs once per join without a slot, and the map is empty once all runs are over |
| `SingleFlight.JoinAfterRemovalStartsAnew` | crates/hyoui-web/src/single_flight.rs:57-61 | a join right after the slot was removed starts a new run and waits for that one |
| `SingleFlight.NobodyJoinsAfterRemoval` | crates/hyoui-web/src/single_flight.rs:57-61 | over every continuation, no waiter is ever added to a run that has given up its slot |
| `SingleFlight.EveryRunCanFinish` | crates/hyoui-web/src/single_flight.rs:55-63 | from every state every run can be brought to its end, with its own result |
| `SingleFlight.JoinBeforeRemovalRidesAlong` | crates/hyoui-web/src/single_flight.rs:47-50 | until then a join only adds a waiter to the run |
| `SingleFlight.SingleFlightObject.constructor` | crates/hyoui-web/src/single_flight.rs:34-38 | an empty map |
| `SingleFlight.SingleFlightObject.JoinKey` | crates/hyoui-web/src/single_flight.rs:43-65 | the map, runs and channels after a join, and ownership kept |
| `SingleFlight.SingleFlightObject.Complete` | crates/hyoui-web/src/single_flight.rs:55-63 | removal followed by publication to the run's own channel, ownership kept, the key free |
| `Wakeup.AnnouncedInEveryRun` | crates/hyoui-web/src/ws_attach.rs:201-216 | away from a drain, a queued command is announced in the pipe or about to be, and none is lost, repeated or reordered |
| `Wakeup.NoLostWakeup` | crates/hyoui-web/src/ws_attach.rs:434-469 | a bridge about to poll with a command queued finds a wake byte unless the reader is between its two writes, in which case the byte can be written; it has closed exactly if it took a shutdown |
| `Wakeup.EveryCommandIsTaken` | crates/hyoui-web/src/ws_attach.rs:434-469 | from every such state both sides can empty the queue or reach the shutdown without anything new being sent |
| `ResizeBarrier.ResizeBlocking` | crates/hyoui-web/src/lib.rs:649-697 | exactly what is written; success exactly if connected as leader, both requests written and the first deciding answer a status reply; conflict exactly for a missing leader role |
| `ResizeBarrier.AwaitIs` | crates/hyoui-web/src/lib.rs:673-697 | the first delivery that is neither a notice nor raw data decides the wait, an error with its code |
| `ResizeBarrier.HandledMeansCompleted` | crates/hyoui-web/src/lib.rs:673-697 | a daemon that handles both requests and refuses neither completes the wait |
| `ResizeBarrier.BarrierHolds` | crates/hyoui-web/src/lib.rs:662-697 | with no reply outstanding, a completed wait means that everything up to and including the resize was handled and nothing refused, for every schedule |
| `ResizeBarrier.QueryIsPassed` | crates/hyoui-web/src/lib.rs:669-697 | the same for any requests in front of the query |
| `ResizeBarrier.StaleReplyProvesNothing` | crates/hyoui-web/src/lib.rs:662-697 | with a reply outstanding there always is a schedule where the wait completes before the resize was touched |
| `ResizeBarrier.RepliesComeFromHandledQueries` | crates/hyoui-web/src/lib.rs:662-675 | there are never more status replies than handled queries |
| `ResizeBarrier.AllAnsweredMeansAllHandled` | crates/hyoui-web/src/lib.rs:662-675 | a reply to every query, the last write being one, means that every write was handled |
| `ResizeBarrier.BarrierInMidstream` | crates/hyoui-web/src/ws_attach.rs:612-638 | on a connection with a past whose queries were all answered, a wait that reads up to a status reply without an error means the resize, and everything unhandled before it, was accepted |
| `ResizeBarrier.ResizeThroughDaemon` | crates/hyoui-web/src/lib.rs:649-697 | the whole operation reports success only if the daemon accepted that resize |
| `Bridge.RecvControl` | crates/hyoui-web/src/ws_attach.rs:539-548 | the next control message, the PTY output before it collected in order |
| `Bridge.WaitForStatus` | crates/hyoui-web/src/ws_attach.rs:618-637 | the resize wait loop is the function of which `Bridge.AwaitStatusDecides` and `Bridge.AwaitStatusStreams` speak |
| `Bridge.WaitForLeader` | crates/hyoui-web/src/ws_attach.rs:539-569 | the leader wait loop is the function of which `BridgeInfo.AwaitLeaderFollows` and `Bridge.AwaitLeaderStreams` speak |
| `Bridge.AwaitStatusStreams` | crates/hyoui-web/src/ws_attach.rs:618-628 | across a resize wait the PTY bytes read stay an in-order merge of the bytes forwarded and those dropped |
| `Bridge.AwaitLeaderStreams` | crates/hyoui-web/src/ws_attach.rs:539-548 | the same for a leader wait |
| `Bridge.AwaitStatusDecides` | crates/hyoui-web/src/ws_attach.rs:618-637 | a wait that does not fail by itself ends at the first status reply or error, everything before it passed over and nothing dropped |
| `Bridge.ResizeContract` | crates/hyoui-web/src/ws_attach.rs:588-642 | which refusals happen exactly when, that a refused resize touches nothing, and that only a positive resize as leader and its query are written |
| `Bridge.ResizeCompletes` | crates/hyoui-web/src/ws_attach.rs:612-638 | success leaves the number of outstanding status replies as it was, an error of the daemon leaves one more |
| `Bridge.LeaderContract` | crates/hyoui-web/src/ws_attach.rs:523-584 | success means this client leads, exactly the request and the latest grid's resize were written, and no reply more is outstanding |
| `BridgeExact.AwaitStatusExactly` | crates/hyoui-web/src/ws_attach.rs:618-637 | a resize wait ends without error exactly if the first delivery that can end it is a status reply and the writer takes all frames before it; an error of the daemon is passed on, all else is internal |
| `BridgeExact.AwaitLeaderExactly` | crates/hyoui-web/src/ws_attach.rs:539-569 | the same for a leader wait and the notice that this client leads |
| `BridgeExact.ResizeExactly` | crates/hyoui-web/src/ws_attach.rs:588-642 | the error of a resize from the script, the limits and the leader flag alone |
| `BridgeExact.LeaderExactly` | crates/hyoui-web/src/ws_attach.rs:523-584 | the error of a leader request likewise, its resize included |
| `BridgeExact.StatusReplyIsSuccess` | crates/hyoui-web/src/ws_attach.rs:630 | a status reply that comes next is success |
| `BridgeRun.DrainQueue` | crates/hyoui-web/src/ws_attach.rs:434-469 | one drain takes the queue up to a shutdown, its bytes in order and its controls in order |
| `BridgeRun.CarryControls` | crates/hyoui-web/src/ws_attach.rs:482-512 | the control loop is the function of which `BridgeRun.CarryKeeps` speaks, stopping at the first result that cannot be queued |
| `BridgeRun.Loop` | crates/hyoui-web/src/ws_attach.rs:379-517 | the bridge loop is the function of which `BridgeRun.RunKeeps` and `BridgeInfo.InfoIsCurrentInEveryRun` speak |
| `BridgeRun.GreetSettles` | crates/hyoui-web/src/ws_attach.rs:361-374 | `Hello` once and first, then the attach info |
| `BridgeRun.CarryKeeps` | crates/hyoui-web/src/ws_attach.rs:482-512 | one control is answered by one result of its kind and id, and the latest positive grid is remembered |
| `BridgeRun.RunKeeps` | crates/hyoui-web/src/ws_attach.rs:379-517 | over every run: batches offered are the browser's bytes in order, results answer the consumed controls in order and once each (a prefix on early exit), the PTY bytes read are an in-order merge of those forwarded and those dropped, `Hello` is first and only, resizes are positive and sent as leader |
| `BridgeExit.OnFrameIs` | crates/hyoui-web/src/ws_attach.rs:401-432 | one frame: mode and leader flag follow it, and exactly when the loop goes on |
| `BridgeExit.CarryReports` | crates/hyoui-web/src/ws_attach.rs:482-512 | a result frame carries exactly the error of its operation |
| `BridgeExit.InputGoesFirst` | crates/hyoui-web/src/ws_attach.rs:470-512 | a wake writes the browser's input as one frame, ahead of all requests of its controls |
| `BridgeExit.OnTurnExits` | crates/hyoui-web/src/ws_attach.rs:401-516 | with the writer there a turn ends in an error exactly for an unreadable frame or input that cannot be sent, well exactly on a shutdown or a gone reader, and goes on otherwise, a rejected batch included |
| `BridgeExit.RunExits` | crates/hyoui-web/src/ws_attach.rs:379-517 | over every run: it goes on exactly while no turn closes or fails, and ends at the first that does, in an error exactly if that one fails |
| `BridgeLoss.AwaitStatusLoses` | crates/hyoui-web/src/ws_attach.rs:618-637 | with the writer there, a resize wait drops exactly the PTY bytes delivered directly before the read failure it runs into |
| `BridgeLoss.AwaitLeaderLoses` | crates/hyoui-web/src/ws_attach.rs:539-569 | the same for a leader wait |
| `BridgeLoss.RunLoses` | crates/hyoui-web/src/ws_attach.rs:379-517 | a run whose writer is there at its end has dropped exactly what its waits lost, in order |
| `BridgeLoss.ForwardedIff` | crates/hyoui-web/src/ws_attach.rs:379-517 | PTY output left exactly as it came in, if and only if no wait of the run met a read failure directly after PTY output |
| `BridgeLoss.ForwardedInOrder` | crates/hyoui-web/src/ws_attach.rs:379-517 | as long as no result reports an internal error and the writer is there, all PTY output was forwarded in arrival order, during waits and between them |
| `BridgeLoss.OutputCanBeLost` | crates/hyoui-web/src/ws_attach.rs:618-628 | a resize wait that reads PTY output and then fails forwards none of it |
| `BridgeInfo.InfoIsCurrentInEveryRun` | crates/hyoui-web/src/ws_attach.rs:409-427 | in every run the last attach info queued carries the mode and leader flag the bridge goes by |
| `BridgeInfo.AwaitLeaderFollows` | crates/hyoui-web/src/ws_attach.rs:539-569 | a leader wait ends at the first notice that this client leads, the first error or a failure of its own, with mode and leader flag those of the last messages read, except a message read when the writer had already gone |
| `BridgeBarrier.NothingOutstandingMeansHandled` | crates/hyoui-web/src/ws_attach.rs:612-638 | with nothing outstanding and a query as last write, a FIFO daemon has handled every write |
| `BridgeBarrier.LeaderSuccessAppliesLatestGrid` | crates/hyoui-web/src/ws_attach.rs:482-512 | a successful leader result with none outstanding at entry: the most recent positive proposal is the last resize written and was passed by its reply |
| `BridgeBarrier.ResizeSuccessIsHandled` | crates/hyoui-web/src/ws_attach.rs:588-642 | the same for a resize command |
| `BridgeBarrier.ResizeSuccessIsApplied` | crates/hyoui-web/src/ws_attach.rs:588-642 | and the daemon accepted that very resize |
| `BridgeBarrier.LeaderSuccessIsApplied` | crates/hyoui-web/src/ws_attach.rs:523-584 | and so for the resize of a leader request |
| `BridgeBarrier.NothingOutstandingWhileSmooth` | crates/hyoui-web/src/ws_attach.rs:379-517 | in every run from the greeting on, at every control: no status reply is outstanding as long as no result reported an error of the daemon or an internal one |
| `BridgeBarrier.ResizeIsOwnBarrier` | crates/hyoui-web/src/ws_attach.rs:588-642 | so there a successful resize result means that the daemon accepted that resize |
| `BridgeBarrier.LeaderIsOwnBarrier` | crates/hyoui-web/src/ws_attach.rs:523-584 | and a successful leader result that it accepted the latest grid |
| `Writer.RunWriter` | crates/hyoui-web/src/ws_attach.rs:220-238 | what is sent is the queue up to its first reasoned close, cut short only by failing sends, then one close with that reason |
| `Writer.HelloIsQueuedFirst` | crates/hyoui-web/src/ws_attach.rs:361-374 | however reader frames are mixed in, `Hello` is queued before any other bridge frame |
| `Writer.HelloIsSentFirst` | crates/hyoui-web/src/ws_attach.rs:220-238 | and wherever the writer stops, it is sent before any other bridge frame that is sent |
| `Environment.PlaceIsSorted` | crates/hyoui-cli/src/web_service.rs:813 | inserting keeps the keys strictly increasing |
| `Environment.PlaceGet` | crates/hyoui-cli/src/web_service.rs:830 | inserting changes the value of exactly one name |
| `Environment.RebuiltIff` | crates/hyoui-cli/src/web_service.rs:793-834 | when a reader that repairs keys rebuilds a map unchanged |
| `ServiceText.XmlEscapeIsOneMap` | crates/hyoui-cli/src/web_service.rs:239-244 | the three replacements escape every character once |
| `ServiceText.XmlRoundTrip` | crates/hyoui-cli/src/web_service.rs:845-850 | the three replacements back undo them, for every text |
| `ServiceText.XmlEscapeHasNoTags` | crates/hyoui-cli/src/web_service.rs:239-244 | escaped text holds no angle bracket and no new line feed |
| `ServiceText.UnescapeOfTrimmed` | crates/hyoui-cli/src/web_service.rs:813 | trimming the escaped key trims the key |
| `ServiceText.SystemdQuote` | crates/hyoui-cli/src/web_service.rs:286-300 | the quoting loop maps every character and adds the quotes |
| `ServiceText.SystemdUnquote` | crates/hyoui-cli/src/web_service.rs:852-875 | the unquoting loop is the function that `ServiceText.SystemdRoundTrip` inverts, on malformed input too |
| `ServiceText.SystemdRoundTrip` | crates/hyoui-cli/src/web_service.rs:852-875 | unquoting undoes quoting, for every text |
| `ServiceText.QuoteIsOneLine` | crates/hyoui-cli/src/web_service.rs:286-300 | quoted text is one line without tabs |
| `ServiceFile.RenderLaunchdPlist` | crates/hyoui-cli/src/web_service.rs:247-283 | the building loops produce the text from which `ReadBack.LaunchdReadBack` reads |
| `ServiceFile.RenderLaunchdEnv` | crates/hyoui-cli/src/web_service.rs:262-269 | its environment part, absent when empty |
| `ServiceFile.RenderSystemdUnit` | crates/hyoui-cli/src/web_service.rs:303-321 | the building loops produce the text from which `ReadBackUnit.SystemdReadBack` reads |
| `PlistMeaning.PlistSays` | crates/hyoui-cli/src/web_service.rs:247-283 | a reader of tags and texts finds in the property list the label, the arguments in order, both flags, the environment, the bundle and both log paths, each once and unescaped |
| `UnitMeaning.CommandIsArguments` | crates/hyoui-cli/src/web_service.rs:303-312 | a reader of quoted words finds in the command exactly the arguments, in order |
| `UnitMeaning.UnitSays` | crates/hyoui-cli/src/web_service.rs:303-321 | the unit line by line, with its command, its restart, the assignments in order and its target |
| `UnitMeaning.SupervisorIsRun` | crates/hyoui-cli/src/web_service.rs:79-99 | what is registered runs the supervisor of the given program |
| `ServiceFile.EnvInDefinition` | crates/hyoui-cli/src/web_service.rs:793-834 | for every text, rendered or not, the reading loops are the function of which the read-back lemmas speak |
| `ReadBack.TakeRendered` | crates/hyoui-cli/src/web_service.rs:803-815 | a rendered entry is read with its key trimmed, leaving exactly what followed it |
| `ReadBack.LaunchdReadBack` | crates/hyoui-cli/src/web_service.rs:793-817 | from any property list with an environment the reader gets every entry, keys trimmed, whatever the other fields hold |
| `ReadBack.LaunchdReadBackIff` | crates/hyoui-cli/src/web_service.rs:793-817 | it gets the very map back exactly if no key has outer whitespace |
| `ReadBackUnit.CleanQuote` | crates/hyoui-cli/src/web_service.rs:286-300 | quoting makes no occurrence of the launchd marker that was not in the text |
| `ReadBackUnit.LineEntryIs` | crates/hyoui-cli/src/web_service.rs:818-832 | any line is read as an entry exactly if, apart from outer whitespace, it is a quoted assignment |
| `ReadBackUnit.EnvironmentLineReads` | crates/hyoui-cli/src/web_service.rs:818-832 | a rendered line is read as its assignment, cut at the first equals sign |
| `ReadBackUnit.UnitHoldsIff` | crates/hyoui-cli/src/web_service.rs:303-321 | the launchd marker, or any such tag, is in a unit exactly if it is in an argument or an assignment |
| `ReadBackUnit.SystemdReadBack` | crates/hyoui-cli/src/web_service.rs:793-834 | from every unit: exactly its assignments cut at the first equals sign, or, with the marker in it, the dictionary after the first marker |
| `ReadBackUnit.MarkerHidesEnvironment` | crates/hyoui-cli/src/web_service.rs:795-801 | nothing at all with the marker and no opening of a dictionary |
| `ReadBackUnit.SystemdReadBackIff` | crates/hyoui-cli/src/web_service.rs:793-834 | the very map comes back exactly if no key holds an equals sign; with the marker and no dictionary, exactly if it was empty |
| `ReadBackEmpty.EmptyReadBackIff` | crates/hyoui-cli/src/web_service.rs:793-834 | from a property list without an environment nothing is read exactly if no field holds, after its first line, a line that reads as an assignment |
| `ReadBackEmpty.OneLineDoesNotForge` | crates/hyoui-cli/src/web_service.rs:818-832 | a field of one line holds none |
| `ReadBackEmpty.FieldCanForge` | crates/hyoui-cli/src/web_service.rs:818-832 | any assignment that escaping leaves alone can be planted by a field |
| `Registration.DriftOnIs` | crates/hyoui-cli/src/web_service.rs:175-192 | the report holds exactly the variables whose values differ, with both values |
| `Registration.NoDriftIff` | crates/hyoui-cli/src/web_service.rs:175-192 | it is empty exactly if all location variables agree |
| `Registration.ReadBackIff` | crates/hyoui-cli/src/web_service.rs:433-442 | the environment survives rendering and reading exactly for the readable definitions of each system |
| `Registration.MarkerBlocksAgain` | crates/hyoui-cli/src/web_service.rs:413-430 | with the marker in a unit, registering the very same definition again is refused exactly if it pins some place |
| `Registration.MarkedDefinitionIsRefused` | crates/hyoui-cli/src/web_service.rs:413-430 | one definition for which that happens |
| `Registration.Backend.constructor` | crates/hyoui-cli/src/web_service.rs:1602-1614 | nothing on disk, nothing loaded |
| `Registration.Backend.InstallNow` | crates/hyoui-cli/src/web_service.rs:1620-1625 | text, loaded labels and install log after an install, however it ends |
| `Registration.Backend.RegisterNow` | crates/hyoui-cli/src/web_service.rs:381-392 | the new state and answer of which `Registration.AgainIsUnchanged` speaks, failures included |
| `Registration.Backend.RegisterCheckedNow` | crates/hyoui-cli/src/web_service.rs:413-430 | the new state and answer of which `Registration.RefusedIff` and the history lemmas speak |
| `Registration.SuccessIsInPlace` | crates/hyoui-cli/src/web_service.rs:381-430 | success leaves the definition's own text, loaded, and installed only if it reports a change |
| `Registration.RegistrationIs` | crates/hyoui-cli/src/web_service.rs:381-430 | for every call, forced or not: exactly when it is refused, changes something, changes nothing and fails, and the whole new state |
| `Registration.ForceReplaces` | crates/hyoui-cli/src/web_service.rs:418 | force is never refused and replaces whatever was there |
| `Registration.RefusedIff` | crates/hyoui-cli/src/web_service.rs:413-430 | after `a` was written, an unforced `b` is refused exactly if they differ on a location variable, with the exact report and nothing changed |
| `Registration.AgainIsUnchanged` | crates/hyoui-cli/src/web_service.rs:381-392 | registering the same loaded definition again installs nothing |
| `Registration.DiskHoldsLastWritten` | crates/hyoui-cli/src/web_service.rs:381-430 | in every history the text under a label is that of the definition last written under it |
| `Registration.RefusalInEveryHistory` | crates/hyoui-cli/src/web_service.rs:413-430 | in every history a refusal happens exactly for other places than those last written |
| `Registration.PlacesNeverMoveUnforced` | crates/hyoui-cli/src/web_service.rs:413-430 | without force no history moves the places a label is pinned to |
| `PinnedEnv.PinnedGet` | crates/hyoui-cli/src/web_service.rs:142-160 | each location variable is pinned to its value or absent |
| `PinnedEnv.PinnedIs` | crates/hyoui-cli/src/web_service.rs:142-160 | name by name, and the search path unless it is empty |
| `PinnedEnv.SamePlacesIff` | crates/hyoui-cli/src/web_service.rs:142-192 | two shells pin the same places exactly if their location variables agree, whatever their search paths |
| `PinnedEnv.PinnedIsReadable` | crates/hyoui-cli/src/web_service.rs:71-99 | pinned names never get in the way of reading back |
| `PinnedEnv.ShellIsRefusedIff` | crates/hyoui-cli/src/web_service.rs:413-430 | registering from another shell is refused exactly if a location variable differs, and then changes nothing |
| `Display.EscapeArgIsOneMap` | crates/hyoui-cli/src/main.rs:1606-1611 | the five replacements escape every character once |
| `Display.ArgvRoundTrip` | crates/hyoui-cli/src/main.rs:1596-1619 | a reader recovers every argument vector from its display |
| `Display.FmtArgvIsInjective` | crates/hyoui-cli/src/main.rs:1596-1619 | different vectors have different displays |
| `Display.FmtArgIsOneLine` | crates/hyoui-cli/src/main.rs:1596-1619 | an argument is shown unchanged exactly if it needs no quotes and holds no backslash |
| `Display.FmtArgvIsOneLine` | crates/hyoui-cli/src/main.rs:1596-1619 | the display is one line without tabs |
| `Display.JsonString` | crates/hyoui-cli/src/main.rs:3103-3122 | a reader of section 7 of RFC 8259 recovers the text from what the loop builds |
| `Display.JsonRoundTrip` | crates/hyoui-cli/src/main.rs:3103-3122 | the same for the specification of the loop |
| `KillWait.WaitLoop` | crates/hyoui-cli/src/main.rs:2012-2077 | the wait loop is the function of which `KillWait.KillTheorem` speaks, and stops at its first verdict |
| `KillWait.KillTheorem` | crates/hyoui-cli/src/main.rs:2012-2077 | at most two kill frames, the second SIGKILL, with the flag and after the first deadline; exit 3 only without the flag and after the deadline; success only by exit notice or EOF in time |
| `KillWait.PhaseIs` | crates/hyoui-cli/src/main.rs:2014-2077 | up to one deadline: idle ticks change nothing and the first event decides |
| `KillWait.KillExactly` | crates/hyoui-cli/src/main.rs:2012-2077 | the whole wait from its first event and, after an escalation, the next: exactly when SIGKILL is sent, to which deadline the wait goes on, and when it succeeds, exits 3 and exits 1 |
| `KillWait.EscalationHappens` | crates/hyoui-cli/src/main.rs:2017-2033 | with the flag, a wait that sees nothing by its deadline sends SIGKILL and goes on for ten seconds |
| `KillWait.BroadcastsChangeNothing` | crates/hyoui-cli/src/main.rs:2048-2076 | leaving out all broadcasts and read timeouts changes neither deadlines nor result |
| `KillWait.WaitIsBounded` | crates/hyoui-cli/src/main.rs:2012-2047 | a loop still waiting has never seen a clock past its deadline, which moved only once, at the escalation |
| `DaemonExit.OriginalSocketUntilRemoved` | crates/hyoui-cli/src/main.rs:2145-2180 | the original inode is at the path exactly until it is removed, restarts included |
| `DaemonExit.WatchEnds` | crates/hyoui-cli/src/main.rs:2154-2180 | exactly when each of the four outcomes comes |
| `DaemonExit.CleanMeansGone` | crates/hyoui-cli/src/main.rs:2145-2180 | with the lock observed it is free for good, and if the inode could be read, clean means exactly that the original socket is gone, which then never returns |
| `DaemonExit.UnexaminedSaysNothing` | crates/hyoui-cli/src/main.rs:2145-2180 | without the inode, clean is reported although the socket was left behind |
| `DaemonExit.KillAndWait` | crates/hyoui-cli/src/main.rs:1969-2112 | exit codes from the wait, the flock and the inode, and the kill frames; success with the lock and the inode observed means that the daemon's lock is released and its socket gone for good |
| `Screen.Lay` | crates/hyoui-cli/src/wait_core.rs:135-154 | one cell changes the grid in place at its position and the one to its right, and nowhere else |
| `Screen.ToText` | crates/hyoui-cli/src/wait_core.rs:128-159 | the in-place grid loop and the row loop produce the text of which `Screen.SameText` and `Screen.OneLinePerRow` speak |
| `Screen.FillGrid` | crates/hyoui-cli/src/wait_core.rs:134-153 | the loop over the cells fills the grid as specified |
| `Screen.RowToText` | crates/hyoui-cli/src/wait_core.rs:155-158 | one row of the grid as text |
| `Screen.FilledShows` | crates/hyoui-cli/src/wait_core.rs:134-154 | for distinct positions the loop meets the closed form: the position's own text, else the continuation mark exactly if a wide cell is on its left, else empty |
| `Screen.LastTextWins` | crates/hyoui-cli/src/wait_core.rs:135-154 | for any cells, repeated positions included, the last cell at a position wins if it has a text |
| `Screen.SameText` | crates/hyoui-cli/src/wait_core.rs:128-159 | the text depends only on the set of visible cells, not on order or empty cells |
| `Screen.OneLinePerRow` | crates/hyoui-cli/src/wait_core.rs:155-158 | the text splits into exactly the rows, none with trailing spaces |
| `Screen.RightHalvesAreSilent` | crates/hyoui/src/screen_text.rs:25-39 | the right half of a wide character adds nothing to the text of its row |
| `Screen.PositionsArePlaces` | crates/hyoui/src/screen_text.rs:25-39 | without wide characters position and place in the text agree, with a space where a cell is empty |
| `Screen.CellIsShown` | crates/hyoui/src/screen_text.rs:25-39 | the text of a cell stands between those to its left and to its right |
| `Screen.OnlySpacesAreCut` | crates/hyoui/src/screen_text.rs:25-39 | exactly the trailing spaces of a row are cut |
| `Screen.EmptyGridIsEmpty` | crates/hyoui-cli/src/wait_core.rs:131-133 | a grid without rows or columns has no text |
| `Polling.WaitForPattern` | crates/hyoui-cli/src/wait_core.rs:294-330 | the first round with an error, a match or a passed deadline decides; an invalid pattern never probes |
| `Polling.WaitForIdle` | crates/hyoui-cli/src/wait_core.rs:343-382 | the same with quiet in place of a match |
| `Polling.QuietMeansEqual` | crates/hyoui-cli/src/wait_core.rs:353-375 | all numbers since the last change are equal and the one before differs |
| `Polling.MatchedMeansQuiet` | crates/hyoui-cli/src/wait_core.rs:353-375 | a match is such a stretch, at least the idle time old and never in the round of a change |
| `Polling.TimeoutIsLate` | crates/hyoui-cli/src/wait_core.rs:323-328 | timeout is never early, a find in the deadline round wins, and a broken probe is reported with its error |
| `Polling.ProbesAreBounded` | crates/hyoui-cli/src/wait_core.rs:305-330 | with a timeout at most one probe more than the intervals that fit in it, and no endless wait |
| `Polling.QuietIsFound` | crates/hyoui-cli/src/wait_core.rs:349-382 | a screen that stays quiet is reported within the intervals of the idle time and one more |
| `Endpoint.CanonicalString` | crates/hyoui-web/src/contract.rs:67-99 | the result is the input without outer whitespace and trailing slashes, and one slash, in canonical form |
| `Endpoint.CanonicalIsFixed` | crates/hyoui-web/src/contract.rs:67-99 | canonical strings are accepted unchanged |
| `Endpoint.ParseIsIdempotent` | crates/hyoui-web/src/contract.rs:67-99 | parsing the result gives the result |
| `Endpoint.SameEndpointIff` | crates/hyoui-web/src/contract.rs:67-99 | two accepted inputs agree exactly if they do without outer whitespace and trailing slashes |
| `Endpoint.AcceptedIff` | crates/hyoui-web/src/contract.rs:67-99 | exactly which inputs are accepted |
| `Endpoint.RefusedIff` | crates/hyoui-web/src/contract.rs:68-91 | exactly when each of the four reasons is given |
| `Endpoint.EmptyComponentsAreAccepted` | crates/hyoui-web/src/contract.rs:83-91 | an input with an empty path component is accepted |
| `Endpoint.EndpointIsOriginAndCookiePath` | crates/hyoui-web/src/contract.rs:107-134 | origin and cookie path make up the canonical string, with one slash after a path |
| `Endpoint.RpIdDropsExactlyThePort` | crates/hyoui-web/src/contract.rs:116-124 | for a plain or bracketed host the RP ID is the host |
| `Endpoint.RpIdWithUserInformation` | crates/hyoui-web/src/contract.rs:116-124 | with user information the RP ID keeps it, unless the last colon is in the user part, where it is cut |
| `Endpoint.RpIdIsHostIff` | crates/hyoui-web/src/contract.rs:116-124 | so it is the host exactly if there is no port, the host is not bracketed and what precedes the last colon of the user part happens to equal it |
| `Endpoint.UserInformationExamples` | crates/hyoui-web/src/contract.rs:116-124 | an input where it is not the host, and one where it is |

## Left out

- Sockets, handshakes, poll flags and `EINTR`, read timeouts that cannot be set or cleared, PTYs, signals and `fork`: a connection is a stream of deliveries that may fail at any point.
- `ClientConnection`: frames it keeps pending and raw acknowledgements are not modelled, sending a batch has three outcomes.
- `Bridge` and `BridgeRun` take the connection and queues as values and give them back; aliasing of the mutable references is not captured.
- `setSub` called on its own and `close` of the shared token; `renew` and `refreshAhead` are steps of every run, but another tab may hand them the old token back, so nothing is claimed about the value they return.
- `AuthShare.LockNameSeparatesSubs`: is about one endpoint; names of different endpoints could meet, because a sub may hold any text.
- The reader task's decoding of browser frames, `auth.extend` and the end of authorisation, and the abort of a writer that does not finish.
- Fairness: `Wakeup.EveryCommandIsTaken` and `AuthProgress.AllReturnInTime` show that progress is possible and bounded, not that a scheduler makes it.
- `DaemonExit`: inodes are not reused while the command waits, and the flock is acquired only after the daemon released it; the path holds that daemon's socket or nothing when the watch is opened.
- `kill` without `--wait`, and with `--no-terminate`.
- `Registration`: labels name distinct files (a label and the same label with `.service` share one under systemd), a failed write leaves the old text, and `launchctl` and `systemctl` are answers of the environment.
- `Registration.ReadBackIff`: is, on Linux, about the same definitions as `ReadBackUnit.SystemdReadBackIff`.
- `ReadBackUnit.SystemdReadBackIff`: is about definitions that do not hold both the launchd marker and an opening of a dictionary; for those `ReadBackUnit.SystemdReadBack` says which dictionary is read, not when it happens to be the environment.
- `program_in_definition`, `log_path_in_definition` and normalisation of the search path; labels and their hashes.
- `Screen.FilledShows`: is about distinct positions, which is what the daemon sends; for repeated ones the order of cells matters and only `Screen.LastTextWins` is stated.
- `Polling`: fetching a snapshot is one answer per round, and the regular expression is any predicate on the text.
- CBOR and JSON encodings other than `json_string`, WebAuthn, the session list, shell completion and the browser user interface.
