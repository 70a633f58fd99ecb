# oratcl bookkeeping, modelled in Dafny

oratcl is a Tcl extension that gives Tcl scripts access to Oracle through
the ODPI-C driver.  Its commands name their objects with handles:
connections (`oraL<n>`), statements (`oraS<n>`) and LOBs (`oraB<n>`).
They keep per-interpreter tables of those handles and a process-wide
directory of published sessions, so another interpreter can adopt a
session without owning it.  They also keep a per-statement bind store
and pending bind variables, an asynchronous-execution registry, a
debounced failover notification, and the status block that `oramsg`
reports.  This project models that bookkeeping and the commands that
drive it.  It proves what each command does to the handle tables, the
directory, the bind store, the pending variables and the native
reference counts, and what it answers.

The ODPI-C driver is an oracle.  Every `dpi*` call is a method of
`Native.Driver` that succeeds, or a parameter saying whether it
succeeded (with an `ErrorInfo` when it failed).  The driver records
reference counts per native object, the objects closed, the executions
made and the names bound, so that "every reference taken is released"
and "owners close, adopters only release" can be stated.  Tcl values
are the `Tcl.Value` datatype.  A command's result is an `Outcome`: a
value, or an error with a message and an `-errorcode`.

Modules, one per source component:

| module | file | models |
|---|---|---|
| Wrappers, Tcl | wrappers.dfy, tcl.dfy | Option; Tcl values, results, integer/boolean/list parsing, decimal text |
| Native | native.dfy | the ODPI-C driver as an oracle, with reference counts |
| Pending | pending.dfy | the growable pending-variable arrays of cmd_bind.c and cmd_exec.c |
| Handles | handles.dfy | the records of state.h, plus the per-interpreter state |
| Naming, Status, Failover | naming.dfy, status.dfy, failover.dfy | generic/util.c: handle names, error recording and routing, the failover debounce |
| Directory, State, Teardown | directory.dfy, state.dfy, teardown.dfy | generic/state.c: the global directory, handle tables, freeing and interpreter teardown |
| Async | async.dfy | generic/async.c: the asynchronous-execution registry, the worker, waiting and cancelling |
| BindState, BindRules, Bind, BindCmd | bindstate.dfy, bindrules.dfy, bind.dfy, bindcmd.dfy | generic/cmd_bind.c: name helpers, the bind-type decision, the bind store, `orabind` |
| ArrayDml, BindExec | arraydml.dfy, bindexec.dfy | generic/cmd_bind.c: `orabindexec` with its scalar and `-arraydml` paths |
| ExecRules, Exec, ExecCmd | execrules.dfy, exec.dfy, execcmd.dfy | generic/cmd_exec.c: rebinding, the single execution, `oraexec`, `orasql`, `oraplexec` |
| StmtCmd | stmtcmd.dfy | generic/cmd_stmt.c: `oraconfig` on connections and statements, `oraopen`, `oraclose`, `oraparse` |
| Logon | logon.dfy | generic/cmd_logon.c: the connect-string parser, `oralogon` with its options, `oralogoff`, `oraautocom`, `orabreak`, `orainfo` |
| Fetch | fetch.dfy | generic/cmd_fetch.c: column description, value conversion (timestamps, LOBs inline or as handles), `orafetch` and its row loop |
| MsgCmd | msgcmd.dfy | generic/cmd_msg.c: `oramsg`, the projection of a handle's status block |
| LobCmd | lob.dfy | generic/cmd_lob.c: `oralob` size, read, write, trim and close |

Where oratcl's description and its code differ, the model follows the
code: `orafetch` without `-returnrows` turns a `-max` that is not
positive into 1 (generic/cmd_fetch.c:201-203), and keeps a positive one.
The exceptions are the defects listed under Findings.  For each, one
member models the code as written, and the commands use the corrected
behaviour.  A statement whose connection was logged off is the other
exception: the code reads the freed record, and the model keeps it
(see Logon.Oralogoff under Left out).  In particular:

- oraclose, oraparse and the statement destructor are modelled waiting
  without a limit (StmtCmd.Reset, Teardown.FreeStmt).  The code passes
  timeout 0, which gives up at once on a running worker; that is
  modelled by StmtCmd.ResetAsWritten, StmtCmd.OracloseAsWritten and
  Teardown.FreeStmtAsWritten.
- orafetch's single-row path is modelled as the general loop with a
  limit of one row (Fetch.Orafetch).  The code's single-row path writes
  neither variable, and that is shown by Fetch.FastPathSkipsArray.

## Model

| member | source | states |
|---|---|---|
| Tcl.WrongArgs | generic/cmd_bind.c:384-387 | a wrong argument count fails with -errorcode {TCL WRONGARGS} (Tcl_WrongNumArgs) |
| Tcl.DigitsRoundTrip | generic/util.c:38-39 | the decimal text appended to a handle prefix reads back as the counter value it was made from |
| Tcl.DigitsInjective | generic/util.c:36-39 | distinct counter values give distinct decimal texts |
| Tcl.IntTextRoundTrip | generic/cmd_fetch.c:58-61 | an integer written as text parses back to the same integer |
| Tcl.RepHasNoZeroByte | generic/cmd_bind.c:344-349 | the bytes Tcl builds for a string value hold no zero byte (U+0000 is C0 80), so for such a string the embedded-NUL test does not fire |
| Tcl.Digits | generic/util.c:38-39 | the decimal text of a counter is non-empty, all digits, and starts with '0' only for 0 |
| Tcl.EncodeChar | generic/cmd_bind.c:344-349 | Tcl's internal encoding of one character is one to four bytes, none of them zero |
| Tcl.RepLength | generic/cmd_bind.c:344-349 | a string's internal bytes number between one and four per character |
| Tcl.DecodeHead | generic/cmd_fetch.c:104 | reading one character takes one to four bytes, and an ASCII byte is the character of its value |
| Tcl.Decode | generic/cmd_fetch.c:104 | the text made from bytes has at most one character per byte |
| Tcl.DecodeHeadEncode | generic/cmd_fetch.c:104 | the first character of an encoding is read back whole, with its length, whatever bytes follow |
| Tcl.DecodeRep | generic/cmd_fetch.c:148 | decoding inverts Tcl's internal encoding, for every string |
| Tcl.DecodeUtf8 | generic/cmd_fetch.c:148 | decoding inverts standard UTF-8, where U+0000 is the byte 0, for every string |
| Tcl.DecodeAscii | generic/cmd_fetch.c:104 | bytes below 0x80 decode one character each, with the byte's value |
| Tcl.ByteArrayOf | generic/cmd_lob.c:87-88 | as Tcl 9 defines it: a byte array gives its own bytes; a value whose characters all fit in a byte gives one byte per character, equal to the character; a value with a wider character gives no bytes |
| Tcl.ByteArrayOfByteChars | generic/cmd_lob.c:87-88 | a byte array shown as a string reads back as the same bytes |
| Tcl.WideCharGivesNoBytes | generic/cmd_lob.c:87-88 | a string holding U+20AC gives no bytes |
| Tcl.NotA | generic/cmd_logon.c:227-228 | a word that is not a number of the kind asked for (a boolean, a double, or text that is no integer at all) fails with -errorcode {TCL VALUE NUMBER} |
| Tcl.GetInt | generic/cmd_stmt.c:172-173 | Tcl_GetIntFromObj, read through Tcl_GetLongFromObj with a 64-bit long, takes integer text from INT_MIN to UINT_MAX and from 2^64-2^31 to 2^64-1, and nothing else; the value is the C int cast, congruent to the text modulo 2^32 (2^31 to 2^32-1 and the top of the unsigned long range wrap to negative) |
| Tcl.GetWide | generic/cmd_fetch.c:189-190 | Tcl_GetWideIntFromObj takes exactly the integer text within 64 bits, with its value |
| Tcl.IntRefusal | generic/async.c:275-276 | a rejected integer word fails with -errorcode {ARITH IOVERFLOW} when it is integer text out of range, and with {TCL VALUE NUMBER} otherwise |
| Tcl.IntegerWords | generic/cmd_stmt.c:172-173 | for every integer: Tcl_GetIntFromObj gives it unchanged in [-2^31, 2^31), minus 2^32 in [2^31, 2^32), minus 2^64 in [2^64-2^31, 2^64), and the overflow error otherwise; Tcl_GetWideIntFromObj gives it within 64 bits and the overflow error otherwise |
| Naming.Namer.constructor | generic/util.c:33 | the handle counter starts at 0 |
| Naming.Namer.NewHandleName | generic/util.c:32-41 | the counter is bumped by one and the name is the prefix followed by the new counter value in decimal |
| Naming.NamesDistinct | generic/util.c:32-41 | names made from different counter values differ, whatever their digit-free prefixes |
| Naming.HandleNumberOf | generic/util.c:38-39 | a four-letter prefix followed by the decimal text of k gives back k |
| Naming.RouteOfGenerated | generic/util.c:209-214 | a generated connection name routes to itself, a statement name to its owner, a LOB name nowhere |
| Native.Driver.AddRef | generic/state.c:298-299 | addRef raises exactly that object's count by one |
| Native.Driver.Release | generic/state.c:144 | release lowers exactly that object's count by one |
| Native.Driver.Close | generic/state.c:142 | a close call is appended to the log of closed objects |
| Native.ReleasedAllCounts | generic/cmd_bind.c:232-237 | releasing a list lowers each object's count by the number of times the list holds it and changes no other count |
| Native.ReleasedAllAppend | generic/cmd_bind.c:232-237 | releasing two lists one after the other equals releasing their concatenation |
| Native.ReleaseUndoesBump | generic/async.c:221-252 | a reference added and then released leaves every count as it was |
| Native.OccurrencesAppend | generic/cmd_bind.c:224-237 | a list's occurrences of an object are those of its two halves |
| Native.Driver.Create | generic/cmd_logon.c:148-158 | a successful create gives a new object of the kind asked for, with the next identifier and a count of one, and changes no other count |
| Native.Driver.Prepare | generic/cmd_stmt.c:379 | a successful prepare gives a new statement holding one reference, recorded as prepared from that SQL text |
| Native.Driver.Execute | generic/cmd_exec.c:277 | every execution is appended to the execution log, in order |
| Native.Driver.Bind | generic/cmd_bind.c:262-279 | every name the driver accepts is appended to the binding log, in order |
| Native.Driver.CreateArray | generic/cmd_bind.c:552-596 | a new array variable holds one reference and the cells written to it, and no earlier object is touched |
| Native.Driver.Break | generic/async.c:351 | every break request is appended to the break log for that session |
| Native.Present | generic/state.c:142-144 | an optional native pointer contributes exactly its one object, or nothing, to the list released |
| Native.IssuedGrow | generic/cmd_bind.c:552 | objects the driver issued stay issued as it issues more |
| Native.Bumped | generic/state.c:298-299 | one more reference raises exactly that object's count by one |
| Native.ReleaseUndoesBumpAll | generic/async.c:221-252 | references added to a list and then released from the same list leave every count as it was |
| Native.ReleasedOne | generic/state.c:144 | releasing a one-element list lowers exactly that count by one |
| Pending.PendingRefs.constructor | generic/cmd_bind.c:209-222 | a new pending list is empty, with the capacity it is created with (4 in cmd_bind.c, 8 in cmd_exec.c) |
| Pending.PendingRefs.Add | generic/cmd_bind.c:224-230 | adding appends the variable and keeps the earlier ones; a full list doubles its capacity |
| Pending.PendingRefs.ReleaseKeep | generic/cmd_bind.c:232-237 | release-all releases every held variable once, empties the list and keeps the capacity |
| Pending.PendingRefs.ReleaseFree | generic/cmd_exec.c:103-110 | release-all releases every held variable once, frees the buffer and resets count and capacity to 0 |
| Handles.Conn.Defaults | generic/state.c:266-279 | a new connection record is zeroed, then gets no autocommit, fetch array size 100, the default prefetch rows, and the given cache size and call timeout |
| Handles.Stmt.Zeroed | generic/state.c:340-344 | a new statement record is zeroed: no native statement, a zero status block |
| Handles.Lob.Zeroed | generic/state.c:359-363 | a new LOB record is zeroed: a zero status block |
| Handles.Interp.constructor | generic/state.c:228-239 | a new interpreter state has three empty handle tables |
| Status.ClientFailure | generic/util.c:238-241 | a client error answers the message with -errorcode {ORATCL CLIENT} |
| Status.DriverFailure | generic/util.c:222-226 | a driver error answers the driver's message, or "ODPI error" without one, with -errorcode {ORATCL ODPI where} |
| Status.ClientMsg | generic/util.c:230-237 | a client error sets rc and ocicode to the code, clears recoverable, sets fn to "Oratcl" and the message, and leaves every other field as it was |
| Status.DriverMsg | generic/util.c:195-204 | a driver error sets rc, ocicode, recoverable, offset, fn, sqlstate ("" when absent) and the message ("ODPI error" when absent), clears action, and keeps rows, sqltype, peo and warning |
| Status.SetError | generic/util.c:230-243 | Oradpi_SetError writes the client status block on the handle and fails with the client outcome |
| Status.PostTarget | generic/util.c:206-214 | a recoverable error is routed only from an "oraL" or "oraS" name, to the connection itself or to the statement's owner |
| Status.Post | generic/util.c:174-189 | a failover event is queued to the owner thread only with both owner interpreter and thread; a missing message becomes "recoverable error" |
| Status.SetErrorFromODPI | generic/util.c:191-228 | the driver error is recorded on the handle; if it is recoverable and the routed connection has a callback, exactly one event with the driver's message is queued; the command fails |
| Status.RecordRows | generic/util.c:57-60 | the row count of the status block is set and nothing else changes |
| Status.StmtType | generic/util.c:76-86 | the statement type is 0 exactly when no flag is set, 1 exactly for queries, and DML (3) only when neither query nor PL/SQL |
| Status.UpdateStmtType | generic/util.c:70-88 | sqltype is updated only with a native statement and a successful info call; otherwise the status block is unchanged |
| Status.CommitOnSuccess | generic/cmd_exec.c:272-274 | commit-on-success needs -commit or autocommit, and a plain query without -commit never commits |
| Status.StmtErrorsRouteToOwner | generic/util.c:211-214 | a recoverable error on a generated statement name reaches its owner, one on a LOB name reaches nobody |
| Status.ConnErrorsRouteToSelf | generic/util.c:209-210 | a recoverable error on a generated connection name reaches the connection itself |
| Directory.ConnDirectory.constructor | generic/state.c:29-31 | the directory starts uninitialised and empty |
| Directory.ConnDirectory.Lookup | generic/state.c:60-76 | only a known name can answer ownerAlive, with its own session; an unknown name or an uninitialised map answers no session and not alive |
| Directory.ConnDirectory.Publish | generic/state.c:42-58 | publishing creates or overwrites the entry with the given session and ownerAlive set, and changes no other name |
| Directory.ConnDirectory.MarkOwnerGone | generic/state.c:78-88 | the entry keeps its session with ownerAlive cleared; an unknown name is a no-op; other names are unchanged |
| Directory.ConnDirectory.Erase | generic/state.c:90-101 | the entry is removed (a no-op for an unknown name) and other names are unchanged |
| Directory.OneOwnerName | generic/state.c:110-116 | two owning connections of the same session carry the same name: one owner per native session |
| State.NewConn | generic/state.c:264-289 | a logon connection is named "oraL<n>" from the bumped counter, owns its session, has the default configuration (cache size and call timeout read back when those calls succeed), is registered locally and published alive, and keeps the directory coherent |
| State.AdoptConn | generic/state.c:291-315 | an adopted proxy has the owner's name, does not own the session, takes one added reference, has the default configuration with zero cache size and call timeout, and is registered locally only |
| State.LookupConn | generic/state.c:317-336 | a local hit with a session is returned without touching the directory; a local entry without a session is dropped; a miss adopts only a live directory entry, taking one reference, else answers none; Resolved states the effect on the handle table and the reference counts |
| State.FreeConn | generic/state.c:118-179 | freeing cancels an armed timer and drops the pending message and callback; an owner marks the entry gone before closing, closes, releases, then erases the entry; an adopter only releases; the pool is closed and released |
| State.ClearFailover | generic/state.c:124-136 | an armed timer is deleted, and the pending message and callback are dropped |
| State.ReleaseSession | generic/state.c:138-146 | an owner marks its directory entry gone and closes the session; either way the session is released once |
| State.ReleasePool | generic/state.c:147-151 | a pool is closed and released once |
| State.NewStmt | generic/state.c:338-349 | a statement is named "oraS<n>" from the bumped counter, records its owner, has no native statement, and is registered locally |
| State.LookupStmt | generic/state.c:351-355 | a statement is found exactly when its name is in the table |
| State.NewLob | generic/state.c:357-368 | a LOB is named "oraB<n>" from the bumped counter, holds the native LOB, and is registered locally |
| State.LookupLob | generic/state.c:370-379 | a LOB is found exactly when its name is in the table |
| State.FreeLob | generic/state.c:213-226 | a native LOB is closed and released once, and the handle no longer holds it |
| Teardown.FreeStmtAsWritten | generic/state.c:181-189 | freeing a statement while its worker is still running abandons the running entry with its references: the zero timeout gives up at once |
| Teardown.FreeStmt | generic/state.c:181-189 | freeing a statement with the wait its comment means joins and removes the asynchronous entry, releasing its references, then closes and releases the native statement |
| Teardown.RankOrderedAppend | generic/state.c:242-262 | appending closes of one phase to a log ordered up to that phase keeps it ordered |
| Teardown.LobRanks | generic/state.c:249-250 | every native the first loop closes is a LOB, and the LOB natives are keyed by the table's keys |
| Teardown.FreeAllLobs | generic/state.c:249-250 | the first loop, over the LOB table in the order it yields its keys, leaves every LOB handle without a native LOB; the close log grows by each handle's native LOB in that order and each reference count drops by the same |
| Teardown.FreeLobRound | generic/state.c:249-250 | one round frees the LOB under the next key: earlier LOBs stay freed, later ones still hold their natives, and the logs hold exactly the visited keys' LOBs |
| Teardown.StmtRanks | generic/state.c:253-254 | every native the second loop closes is a statement, and the snapshots are keyed by the table's keys |
| Teardown.FreeAllStmts | generic/state.c:253-254 | the second loop, over the statement table in the order it yields its keys, leaves every handle without a native statement; every statement-holding handle's asynchronous entry is gone from the registry and no other entry changes; the close, release, break and execution logs grow by each handle's part in that order |
| Teardown.FreeEachStmt | generic/state.c:253-254 | the same loop over the handles in visiting order, against their snapshots: each freed, the statement holders' entries erased, the four logs grown by each snapshot's part |
| Teardown.FreeStmtRound | generic/state.c:253-254 | one round frees the next handle: earlier handles stay freed, later ones still match their snapshots, and the logs hold exactly the visited snapshots' parts |
| Teardown.FreeStmtAt | generic/state.c:253-254 | freeing one statement changes only its own registry entry, which goes when it held a native statement, and adds its snapshot's part to each log |
| Teardown.FreeLobsAndStmts | generic/state.c:249-255 | the first two loops: the close log grows by every LOB, then every statement; the other logs and the registry as the two loops leave them |
| Teardown.SessionsStayOpen | generic/state.c:249-255 | closing LOBs and statements closes no published session, so every published session of a live owner is still open for the third loop |
| Teardown.ConnRanks | generic/state.c:257-258 | every native the third loop closes is a session or a pool |
| Teardown.FreeEachConn | generic/state.c:257-258 | the third loop, over the connection handles in visiting order: every handle is freed, exactly the owners' directory entries are erased, and the close log and counts change by each snapshot's session and pool |
| Teardown.FreeConnRound | generic/state.c:257-258 | one round frees the next connection: earlier handles stay freed, later ones still match their snapshots, the owners among the visited handles have lost their entries, and the logs hold exactly the visited snapshots' parts |
| Teardown.FreeConnAt | generic/state.c:257-258 | freeing one connection erases only its own directory entry, and only when it owns its session, and adds its snapshot's part to the close log and counts |
| Teardown.OwnersErased | generic/state.c:257-258 | the names the third loop erases are exactly the keys of the owning handles |
| Teardown.ClearTables | generic/state.c:251-259 | deleting the hash tables leaves all three empty |
| Teardown.FreeConnsAndClear | generic/state.c:257-259 | the third loop, then the tables are deleted |
| Teardown.FreeHandles | generic/state.c:249-259 | the three loops in source order: the close log grows by LOBs, statements, then connections; the directory loses exactly the owners' entries |
| Teardown.TeardownHolds | generic/state.c:242-262 | whatever order the tables yield, the teardown log holds every native LOB, statement and pool and every owning handle's session, and the released list holds every session |
| Teardown.TeardownAssembled | generic/state.c:242-262 | the three loops' logs put together are the teardown log, phase-ordered and holding every owner's session, and each reference count dropped by the number of times the released list names it |
| Teardown.DeleteInterpData | generic/state.c:242-262 | teardown empties all three tables; the close log grows by exactly the teardown log (every native LOB, then every statement, then each connection's owned session and pool, in the orders the tables yield), which is phase-ordered and holds every owner's session; each reference count drops by the number of times the released list names it; breaks and executions grow by the statements' parts; every statement holder's asynchronous entry is gone; exactly the owners' directory entries are erased and the others are unchanged |
| Failover.Delay | generic/util.c:163 | the timer delay is foDebounceMs, or 250 when that is 0 |
| Failover.Burst | generic/util.c:155-166 | however many events arrive, exactly one timer is armed (the one already scheduled or one with the configured delay), holding the last message |
| Failover.CallbackCommand | generic/util.c:117-121 | the evaluated command is the callback's words followed by the connection name, "recoverable" and the pending message ("" if none) |
| Failover.FailoverTimerProc | generic/util.c:97-130 | firing clears the timer and the pending message; the callback is evaluated once in the owner interpreter only when there is an owner, it is not deleted and a callback is set |
| Failover.FailoverEventProc | generic/util.c:132-172 | an event for a deleted interpreter or an unresolvable name changes no debounce state; otherwise the resolved (possibly adopted) connection takes the message and arms a timer only if none is armed; other connections are unchanged; resolving the name changes the handle table and the counts only as Resolved states |
| Failover.DeliverNext | generic/util.c:132-172 | the event loop takes the oldest queued event; a connection it reaches holds the event's message and an armed timer; the handle table and the counts change as FailoverEventProc resolves the name (Resolved), nothing for a deleted interpreter, and every other connection keeps its debounce state |
| Async.Held | generic/async.c:97-100 | the references an entry holds are its statement and then its session, the order AsyncRemove releases them |
| Async.WorkerCommits | generic/async.c:127-132 | the worker commits on success exactly when the info call succeeds and -commit was given or autocommit is on for DML or PL/SQL |
| Async.AfterRun | generic/async.c:134-160 | after the worker the entry is done and not running; rc is -1 with the driver's code and a copy of a non-empty message on failure, 0 on success; nothing else changes |
| Async.AfterRunSettles | generic/async.c:114-160 | a running entry keeps its session, statement and key through the worker's run |
| Async.AsyncRegistry.constructor | generic/async.c:48-49 | the registry starts uninitialised |
| Async.AsyncRegistry.Lookup | generic/async.c:61-69 | an entry is found exactly when the registry is initialised and holds the statement |
| Async.AsyncRegistry.Ensure | generic/async.c:71-85 | the registry is initialised; a statement without an entry gets a zeroed one (isNew), an existing entry is left alone |
| Async.AsyncRegistry.Remove | generic/async.c:87-108 | the entry is dropped and its statement and session references are released once each; no entry is a no-op |
| Async.AsyncRegistry.Claim | generic/async.c:187-197 | an entry still running makes the start busy and is left as it is; a finished one is removed (result discarded, references released) and replaced by a zeroed entry |
| Async.AsyncRegistry.Snapshot | generic/async.c:393-420 | the snapshot lists exactly the statements whose entry belongs to the connection, each with its entry's key |
| Async.AsyncRegistry.Finish | generic/async.c:114-161 | the worker executes the entry's statement once with its commit mode and records the result in that entry only |
| Async.Ceil10 | generic/async.c:357-370 | the first poll at or after an instant is a multiple of 10 ms less than 10 ms later |
| Async.PollSpec | generic/async.c:357-370 | polling every 10 ms sees the task finish at the first poll at or after it, or gives up at the first poll at or after a non-negative timeout before that; a negative timeout never gives up |
| Async.ZeroTimeoutAbandons | generic/async.c:366-367 | a timeout of 0 gives up at the first poll on any task not yet finished |
| Async.NegativeTimeoutCompletes | generic/async.c:295-305 | a negative timeout always waits until the task finishes |
| Async.PollStmtWait | generic/async.c:357-370 | the loop of Oradpi_StmtWaitForAsync meets PollSpec |
| Async.PollWaitAsync | generic/async.c:285-306 | the loop of Oradpi_Cmd_WaitAsync, whose waited time only advances under a non-negative timeout, meets PollSpec |
| Async.Started | generic/async.c:199-237 | an accepted start leaves a running entry with rc 0, no error, not canceled, the owner's autocommit, the commit flag, the key, and one reference each to the statement and session |
| Async.ExecAsync | generic/async.c:163-256 | wrong argument counts, an unknown handle and a third word other than -commit are refused with the registry unchanged; otherwise the start proceeds as ExecAsyncEffect states: an accepted start leaves both status blocks unchanged, and a failed one returns the failing step's error (dpiConn_addRef, dpiStmt_addRef or the thread) recorded on the owner for dpiConn_addRef and on the statement otherwise, the other block unchanged; every refusal leaves the reference counts; only the named statement and its owner can have their status changed |
| Async.ExecAsyncStmt | generic/async.c:184-256 | an unprepared statement fails with "statement is not prepared"; a running entry fails with "statement already executing asynchronously" and stays; otherwise the entry is claimed and the worker started |
| Async.StartWorker | generic/async.c:199-252 | a start whose addRefs and thread creation succeed answers 0 with the Started entry and both references added; any failure releases every reference added, removes the entry and reports that failure on the one handle StartRefused names; success changes neither status block |
| Async.ReportStartFailure | generic/async.c:221-251 | an addRef failure on the session is recorded on the owner, one on the statement on the statement, a thread failure as a client error on the statement; the other handle's block is unchanged |
| Async.TakeRefs | generic/async.c:221-252 | both references are added exactly when every step succeeds; on any failure every count is back where it was |
| Async.Join | generic/async.c:308-326 | the one joiner finds the entry finished (running it to completion first), removes it and releases its references |
| Async.StmtWaitForAsync | generic/async.c:345-388 | no entry answers 0 with nothing changed; with cancel the session is broken and the entry marked canceled; a wait that gives up answers -3123 and leaves the entry; otherwise the entry is joined and removed and 0 is answered |
| Async.WaitTimeout | generic/async.c:268-277 | the timeout is -1 unless "-timeout ms" is given as the third and fourth words; any other third word of four is refused; ms is read as Tcl_GetIntFromObj reads it, so 2^31 to 2^32-1 and 2^64-2^31 to 2^64-1 wrap to negative values (4294967295 and 18446744073709551615 wait without a limit), and any other word is refused with its error |
| Async.JoinedMsg | generic/async.c:331-340 | after a wait the statement type is refreshed; a failed run is recorded with its stored code (or -1) and message, or -1 and "asynchronous execute failed" without one |
| Async.WaitAsync | generic/async.c:258-343 | argument errors and unknown handles leave the registry; no entry answers 0; a wait that gives up answers -3123 with that status and keeps the entry; a completed wait answers the worker's rc, removes the entry, forgets the pending variables and reports a failure; every path but the completed one leaves the reference counts, the executions and the pending lists, and the status block except on giving up; the completed one adds the worker's execution when it was running; only the named statement's status and pending list can change |
| Async.WaitOn | generic/async.c:279-342 | the wait after the checks: 0 without an entry, -3123 on giving up, otherwise the joined result; the first two leave the counts, executions and pending lists, the third adds the worker's execution when it was running; only this statement's pending list can change |
| Async.Collect | generic/async.c:308-342 | joining answers the worker's rc, drops the entry and the statement's pending variables, releasing both; the worker's execution is logged when it was running; no other pending list can change |
| Async.Report | generic/async.c:328-342 | the statement's pending variables are forgotten and released, the type refreshed, a failure reported, and rc answered; no other pending list can change |
| Async.ReportStatus | generic/async.c:331-340 | the status block becomes JoinedMsg |
| Async.CancelAndJoinAllForConn | generic/async.c:390-433 | nothing happens without an initialised registry or connection; otherwise the snapshot is exactly the connection's entries with their keys, afterwards no entry belongs to the connection and every other entry is as it was, the pending lists of the snapshot's keys are gone, and the reference counts, the break log and the execution log are those of CancelRefs, CancelBreaks and CancelRuns over the snapshot: each entry's held references and its key's pending variables released, one break per entry's session, one execution per running worker |
| Async.CancelEach | generic/async.c:422-428 | the second loop removes exactly the snapshot's entries, forgets exactly the snapshot's keys, and leaves the counts and logs that CancelRefs, CancelBreaks and CancelRuns give for the snapshot |
| Async.CancelNext | generic/async.c:423-427 | one round carries the remaining walks from keys[i..] to keys[i + 1..]: what is left to release, break and run shrinks by exactly what the round did |
| Async.CancelStep | generic/async.c:423-427 | a round that releases an entry's held references and its key's pending variables, breaks its session and lets its worker run leaves the same end state as the walk over keys[i..] |
| Async.CancelRefsCounts | generic/async.c:390-433 | after cancel-all each reference's count has dropped by exactly its occurrences among the references the snapshot's entries held and the pending variables of their keys |
| Async.CancelOne | generic/async.c:423-427 | one round removes one entry and forgets one key; it releases the entry's statement and session references, then the key's pending variables; breaks the entry's session; and logs the worker's execution when it was still running |
| Async.CancelWait | generic/async.c:345-387 | the cancelling wait without timeout breaks the entry's session, lets a running worker execute once, removes the entry and releases its references; no entry means no change |
| Async.ForgetPendings | generic/async.c:425 | forgetting a key drops just its pending list from the value view of all lists and releases exactly its variables |
| BindState.GetBindStore | generic/cmd_bind.c:120-131 | the statement's bind store exists afterwards, created empty on first use, and no store changes |
| BindState.StoreBind | generic/cmd_bind.c:133-143 | the value is remembered under the name, replacing any earlier one; every other name keeps its value |
| BindState.BindStoreForget | generic/cmd_bind.c:145-164 | the statement's whole store is dropped (a no-op for an unknown key) and the pending variables are untouched |
| BindState.LookupBindStore | generic/cmd_exec.c:55-61 | a store is found exactly when one was created for the key |
| BindState.GetPendings | generic/cmd_bind.c:209-222 | the statement's pending list exists afterwards; an existing one is returned as it is, a new one is empty with capacity 4 |
| BindState.PendingsForget | generic/cmd_bind.c:239-257 | every pending variable of the statement is released once and its list dropped; an unknown key is a no-op |
| BindRules.WithColon | generic/cmd_bind.c:24-34 | the result is ":" followed by the name exactly when the name and two more bytes fit the buffer; otherwise none (the C function's 0) |
| BindRules.StripColon | generic/cmd_bind.c:36-43 | one leading ':' is removed and nothing else changes |
| BindRules.StripWithColon | generic/cmd_bind.c:24-43 | stripping undoes adding the colon |
| BindRules.StripColonOnce | generic/cmd_bind.c:38-39 | for every name, exactly one colon is removed: "::" + name strips to ":" + name, and a second strip gives the name |
| BindRules.StrCaseStrContains | generic/cmd_bind.c:45-59 | the loop over start positions answers true exactly when the non-empty needle occurs somewhere, ignoring ASCII case |
| BindRules.ContainsFoldExtend | generic/cmd_bind.c:45-59 | a word found in a part of a name is found in the whole name |
| BindRules.NoBlobWithoutB | generic/cmd_bind.c:61-67 | a name without any 'b' is never a BLOB hint by the search |
| BindRules.BlobHints | generic/cmd_bind.c:61-74 | "b", "B" and any name containing a word that lowers to "blob", at any position, are BLOB hints; the empty name is neither a BLOB nor a CLOB hint |
| BindRules.Attempts | generic/cmd_bind.c:259-270 | binding offers the bare name always and ":name" only when it fits the 256-byte buffer; cmd_bind.c tries ":name" first, cmd_exec.c the bare name first |
| BindRules.FirstAccepted | generic/cmd_bind.c:259-283 | the name bound is the first spelling the driver accepts; a bind fails only when no spelling is accepted |
| BindRules.OrdersAgreeOnSuccess | generic/cmd_exec.c:112-132 | the two files' orders succeed on the same names, and bind the same spelling unless the driver accepts both |
| BindRules.NulTestIsDead | generic/cmd_bind.c:344-349 | as written, the embedded-NUL test does not send a short string whose string form Tcl built itself to a BLOB: that form holds no zero byte |
| BindRules.NulStringBoundAsBytes | generic/cmd_bind.c:344-349 | as written, "a\0b" under a plain name is bound as bytes; corrected, as a BLOB |
| BindRules.ScalarBindDecision | generic/cmd_bind.c:324-380 | first match wins: BLOB exactly for a BLOB-hint name, a byte array or a string holding NUL; else CLOB exactly above 4000 bytes; else INT64 exactly for a 64-bit integer; else DOUBLE exactly for a double; else bytes |
| BindRules.ClobHintIrrelevant | generic/cmd_bind.c:351-358 | a CLOB hint alone changes nothing: two names that are not BLOB hints bind any value alike |
| BindRules.CorrectionOnlyForNul | generic/cmd_bind.c:344-349 | the corrected decision differs from the code as written only for a string holding NUL under a name that is not a BLOB hint |
| Bind.PlanBindSpec | generic/cmd_bind.c:324-380 | a bind succeeds only on a statement the driver has, under an accepted spelling that strips back to the name, holding what the bind decision chose; an accepted bare name always binds a plain value |
| Bind.NewLobVar | generic/cmd_bind.c:288-312 | a new variable and temporary LOB are created; the LOB is released once in the variable or on failure, and on failure the variable too, so only a successful variable keeps a reference |
| Bind.MakeLobVar | generic/cmd_bind.c:285-312 | the LOB variable is built or the first failing step's error is recorded on the statement under the call it names |
| Bind.BindByNameDual | generic/cmd_bind.c:259-283 | the target is bound under the first accepted spelling; when none is accepted the driver's error is recorded and nothing is bound |
| Bind.BindLob | generic/cmd_bind.c:285-322 | a LOB variable holding the data is bound and kept; a refused bind releases it again and fails with "dpiStmt_bindByName(LOB)" |
| Bind.BindScalar | generic/cmd_bind.c:324-380 | the bind happens as PlanBind says, releasing every object created except a bound LOB variable |
| Bind.BindOneByValue | generic/cmd_bind.c:319-320 | a bound LOB variable joins the statement's pending list; nothing else is added and no earlier reference count changes |
| BindCmd.LeadingPairs | generic/cmd_bind.c:398-410 | the pairs taken never run past the words |
| BindCmd.LeadingPairsWords | generic/cmd_bind.c:400-410 | pair k comes from words i+2k (a name starting with ':', colon stripped) and i+2k+1 (its value); the pairs end at the first word that is not a name followed by a value |
| BindCmd.PlanPairsShape | generic/cmd_bind.c:400-410 | binding stops at the first refused pair and only there: every plan but the last bound its pair, and fewer plans than pairs means the last was refused |
| BindCmd.StoredLastWins | generic/cmd_bind.c:133-143 | after remembering the pairs a name is stored iff it was before or a pair names it, with the value of the last pair naming it, or else its old value |
| BindCmd.PlansGrow | generic/cmd_bind.c:404-409 | one more bound pair adds its bind call and its kept variable, and raises exactly that variable's count |
| BindCmd.PlanPairsUnfold | generic/cmd_bind.c:400-410 | binding a nonempty list of pairs is binding the first, then the rest unless the first was refused |
| BindCmd.BindStep | generic/cmd_bind.c:404-409 | one loop turn binds the pair as PlanBind says and stores it only when bound |
| BindCmd.ProgressStep | generic/cmd_bind.c:400-410 | a bound pair keeps the loop invariant: the pairs so far bound as planned, the rest of the plan ahead |
| BindCmd.FailedStep | generic/cmd_bind.c:404-405 | a refused pair ends the loop with its error and what the pairs before it reached |
| BindCmd.AllBound | generic/cmd_bind.c:400-410 | a loop that bound every pair reached the whole plan with no error |
| BindCmd.BindPairs | generic/cmd_bind.c:398-410 | the loop binds the leading pairs in order into the pending list and the bind store, stopping at the first refused bind with its error on the statement |
| BindCmd.PendingBalance | generic/cmd_bind.c:394-410 | every reference count, less what the new pending list holds, equals the count before, less what the old list held: binding leaks nothing |
| BindCmd.OrabindFinish | generic/cmd_bind.c:393-417 | binding from the prepared view does what orabind promises: the error of the first refused pair, wrong-args without any pair, else 0 |
| BindCmd.PrepareBinds | generic/cmd_bind.c:393-396 | the statement's pending list (made on first use) has every variable released and is emptied, and its bind store exists |
| BindCmd.BindPending | generic/cmd_bind.c:398-410 | binding into the interpreter's pending list for the key leaves every other list alone |
| BindCmd.OrabindStmt | generic/cmd_bind.c:393-417 | orabind on a found statement releases its pending variables, binds and stores the leading pairs, and answers as OrabindDone says |
| BindCmd.Orabind | generic/cmd_bind.c:382-418 | fewer than three words or an unknown handle fail with nothing changed; otherwise the pending variables are released and the leading :name value pairs bound and remembered, with wrong-args when there are none; only the named statement's status block and pending list can change, and events go only to the queues q names (which hold the one its errors reach) |
| BindRules.ContainsFoldIgnoresCase | generic/cmd_bind.c:45-59 | for every text and word, lowering the text or the word changes nothing: the search is case-insensitive on both sides |
| BindCmd.LeadingPairAt | generic/cmd_bind.c:400-403 | pair k is word 2 + 2k, a name starting with ':' (colon stripped), and the word after it |
| BindCmd.LeadingPairsStop | generic/cmd_bind.c:400 | the pairs stop at the first word that is not a ':' name followed by a value |
| BindCmd.PlanPairs | generic/cmd_bind.c:400-410 | no more plans than pairs; the lemmas below fix which plans are made |
| BindCmd.PlanPairsBoundAt | generic/cmd_bind.c:404-405 | every pair before the last plan was bound |
| BindCmd.PlanPairsShort | generic/cmd_bind.c:404-405 | when fewer plans than pairs are made, the last plan is the refusal that stopped the loop |
| BindCmd.PlanPairsFails | generic/cmd_bind.c:404-405 | a refused pair ends the loop with its own plan only |
| BindCmd.PlanPairsGoesOn | generic/cmd_bind.c:404-409 | a bound pair's plan is followed by the plans of the rest, drawn from the counter it left |
| BindCmd.StoredHas | generic/cmd_bind.c:133-407 | after remembering the pairs the store holds a name exactly when it held it before or one of the pairs names it |
| BindCmd.StoredLast | generic/cmd_bind.c:133-407 | a name takes the value of the last pair naming it |
| BindCmd.StoredUntouched | generic/cmd_bind.c:133-407 | a name no pair names keeps its earlier value |
| BindCmd.StoredGrow | generic/cmd_bind.c:407 | remembering one more pair updates the store by exactly that pair |
| BindCmd.ReachedGrow | generic/cmd_bind.c:404-409 | a bound pair adds its store entry, its kept variable, its bind call and its reference count, and nothing else |
| BindCmd.KeptIssued | generic/cmd_bind.c:224-230 | a variable kept on the pending list was created by the driver for this bind |
| BindCmd.FailedKeeps | generic/cmd_bind.c:404-405 | a refused pair leaves the store, the pending list, the bind log and the counts as the earlier pairs left them |
| BindCmd.BindNext | generic/cmd_bind.c:400-410 | one turn of the binding loop: a bound pair moves the loop invariant on by its plan; a refused one ends the loop as the plans say |
| ExecRules.InfoReply | generic/cmd_exec.c:266-270 | the info call on a null statement is refused; otherwise it answers as the driver does |
| ExecRules.RunSpec | generic/cmd_exec.c:266-291 | a run succeeds exactly when the statement exists, the info call answers and the execution succeeds; it executes the statement at most once, with one iteration and no batch errors, committing only under the commit rule; a success records the row count (when reported) and the statement type, a failure records the failing call |
| ExecRules.Entries | generic/cmd_exec.c:245-247 | the pairs walked are the store's names in walk order, each with its stored value |
| ExecRules.RebindPairs | generic/cmd_exec.c:260-261 | a statement with no store has nothing rebound; otherwise at most one pair per stored name |
| ExecRules.StoredPrefixSelf | generic/cmd_exec.c:241-254 | rebinding leaves the bind store as it was |
| ExecRules.ReleaseBalance | generic/cmd_exec.c:287-288 | releasing the local list restores every count; releasing the statement's pending list too lowers each count by what that list held |
| ExecRules.ExecOnceFinish | generic/cmd_exec.c:256-292 | rebinding, the run and the releases that follow together do what ExecOnceDone states |
| Exec.ExecuteOnce | generic/cmd_exec.c:266-285 | the info call, the execution with commit-on-success by the rule, then the row count and the statement type, as RunSpec states |
| Exec.Rebind | generic/cmd_exec.c:241-254 | every remembered pair is bound again into a fresh local list with the cmd_exec.c helpers, stopping at the first failure; the store is unchanged |
| Exec.RunLocal | generic/cmd_exec.c:261-287 | after a failed bind only the local list is released; otherwise the statement runs once and the local list is released |
| Exec.RebindRun | generic/cmd_exec.c:257-287 | rebinding into a fresh local list, running unless a bind failed, and releasing the local list leaves every count as it was before |
| Exec.ForgetOnSuccess | generic/cmd_exec.c:287-291 | after a successful run the statement's pending variables are released and forgotten; after a failure they stay |
| Exec.ExecOnce | generic/cmd_exec.c:256-292 | ExecOnce_WithRebind binds the remembered values again, runs the statement once, releases the local list on every path and forgets the pending variables only on success |
| ExecCmd.PrepareReply | generic/cmd_exec.c:343 | the driver refuses to prepare on a null connection |
| ExecCmd.PrepareRefused | generic/cmd_exec.c:343-344 | a refused prepare records the driver's error on the owner connection and changes nothing else |
| ExecCmd.Reprepare | generic/cmd_exec.c:346-351 | the new native statement replaces the old, whose reference is released once; the remembered values are forgotten; the pending variables stay |
| ExecCmd.RunReprepared | generic/cmd_exec.c:346-353 | after a successful prepare the new statement replaces the old and runs once with nothing remembered |
| ExecCmd.PrepareRun | generic/cmd_exec.c:340-353 | a refused prepare is recorded on the owner and changes nothing else; an accepted one replaces the statement, forgets the stored values, and runs once |
| ExecCmd.PlexecWords | generic/cmd_exec.c:361-362 | the words scanned are those after the handle |
| ExecCmd.WordsStep | generic/cmd_exec.c:362-375 | one more word scanned either sets the commit flag or adds a block |
| ExecCmd.BlocksMembers | generic/cmd_exec.c:362-375 | the blocks are exactly the words other than "-commit", in order |
| ExecCmd.BlocksPrefix | generic/cmd_exec.c:362-375 | a longer word list has at least as many blocks as its prefix |
| ExecCmd.PlexecOptions | generic/cmd_exec.c:358-375 | the scanning loop: "-commit" any number of times sets the commit flag, the first other word is the block, a second other word is a usage error |
| ExecCmd.PlexecStartAsWritten | generic/cmd_exec.c:356-379 | as written, the scan succeeds exactly with at most one block, and word 1 is looked up whatever the word count |
| ExecCmd.PlexecAsWrittenReadsPastEnd | generic/cmd_exec.c:377 | with the command word alone the code reads word 1, past the end of the words |
| ExecCmd.PlexecStartInBounds | generic/cmd_exec.c:356-379 | the corrected start only looks up a word that exists and otherwise agrees with the code |
| ExecCmd.Oraexec | generic/cmd_exec.c:294-317 | a wrong word count, then an unknown handle, then a third word other than -commit fail with nothing changed; otherwise the statement runs once with its remembered values bound again; only the named statement's status block and pending list, and the queue its errors reach, can change |
| ExecCmd.Orasql | generic/cmd_exec.c:319-354 | a wrong word count, then an unknown handle, then a fourth word other than -commit fail with nothing changed; otherwise the SQL is prepared on the owner's connection and run once as PrepareRun states; only the named statement, its owner's status block, its pending list and the owner's queue can change |
| ExecCmd.OraplexecStmt | generic/cmd_exec.c:381-394 | with a block the statement is prepared anew and run as orasql does; without one it runs as oraexec does |
| ExecCmd.Oraplexec | generic/cmd_exec.c:356-395 | the options are scanned first (a second block is a usage error), then the handle is looked up; then OraplexecStmt; only the named statement, its owner's status block, its pending list and the owner's queue can change |
| ArrayDml.InferredSettles | generic/cmd_bind.c:513-525 | once an element has made the list NUMBER, the later elements change nothing |
| ArrayDml.InferredBytesIff | generic/cmd_bind.c:509-530 | a list binds as VARCHAR exactly when none of its elements reads as a number |
| ArrayDml.InferredWidth | generic/cmd_bind.c:511-532 | a VARCHAR list's element size is at least 1, holds every element's string form, and is 1 or the length of one of them |
| ArrayDml.InferredNumeric | generic/cmd_bind.c:516-524 | the first element that reads as a number decides: INT64 when it reads as a 64-bit integer, DOUBLE otherwise |
| ArrayDml.InferType | generic/cmd_bind.c:509-532 | the inference loop returns the type Inferred defines |
| ArrayDml.WriteCells | generic/cmd_bind.c:568-596 | the fill loop writes, row by row, the cell each element gives |
| ArrayDml.CellsFit | generic/cmd_bind.c:568-596 | every cell fits its variable: a VARCHAR cell is its element's string form and no longer than the element size; a NUMBER cell holds its element's number, and is left unwritten exactly when the element does not read as that kind |
| ArrayDml.SpecsOf | generic/cmd_bind.c:475-536 | one spec per pair |
| ArrayDml.MismatchFrom | generic/cmd_bind.c:495-507 | the mismatch found, if any, lies at or after the position the search starts from |
| ArrayDml.MismatchFromSpec | generic/cmd_bind.c:495-507 | the search finds nothing exactly when every list is as long as the first; otherwise it finds the first list that is not |
| ArrayDml.MismatchSpec | generic/cmd_bind.c:495-507 | the lists are refused exactly when one is not as long as the first, with the error naming the first such list, its length and the first list's length |
| ArrayDml.CollectSpecs | generic/cmd_bind.c:472-536 | the collecting loop returns the mismatch error MismatchOutcome gives, and otherwise one spec per pair with its inferred type |
| ArrayDml.BoundSpecs | generic/cmd_bind.c:549-606 | no more specs are bound than there are |
| ArrayDml.Made | generic/cmd_bind.c:549-606 | no more variables are made than there are specs |
| ArrayDml.VarsFrom | generic/cmd_bind.c:552 | one variable per spec |
| ArrayDml.BoundSpecsSpec | generic/cmd_bind.c:549-606 | every spec before BoundSpecs gets its variable made and bound, and the spec at BoundSpecs, if any, fails |
| ArrayDml.BoundSpecsAt | generic/cmd_bind.c:549-606 | a count with every spec before it passing and the spec at it failing, or none left, is BoundSpecs |
| ArrayDml.FilledAt | generic/cmd_bind.c:552-596 | the k-th variable made holds spec k's shape and cells |
| ArrayDml.FilledOther | generic/cmd_bind.c:552-596 | a variable not made by the loop keeps its entry |
| ArrayDml.FilledSpec | generic/cmd_bind.c:552-596 | after n specs, variable k holds spec k's shape and cells for every k below n, and every other variable is as before |
| ArrayDml.CountsAddFresh | generic/cmd_bind.c:552 | a fresh variable adds one reference to the counts of those made |
| ArrayDml.MakeVar | generic/cmd_bind.c:550-605 | one turn: dpiConn_newVar; on success the cells and the bind under either spelling; the outcome and the status block name the failing call |
| ArrayDml.VarsFromNext | generic/cmd_bind.c:549-552 | one more variable made extends the list of those made by the next one the counter names |
| ArrayDml.PassedNext | generic/cmd_bind.c:549-606 | one more passing spec extends the passing prefix |
| ArrayDml.BindingsNext | generic/cmd_bind.c:598 | spec k's variable adds its bind call to those of the first k |
| ArrayDml.MadeStep | generic/cmd_bind.c:549-606 | spec k passing moves the loop state on to k + 1 |
| ArrayDml.StopOutcome | generic/cmd_bind.c:552-604 | spec k failing makes it the failure the outcome and the status block report |
| ArrayDml.NoVarStop | generic/cmd_bind.c:552-558 | dpiConn_newVar failing for spec k ends the loop with the variables of the first k |
| ArrayDml.RefusedStop | generic/cmd_bind.c:598-604 | a variable made but refused its bind ends the loop holding that variable too |
| ArrayDml.MadeAll | generic/cmd_bind.c:549-606 | every spec passing ends the loop with success and the status block unchanged |
| ArrayDml.MakeNext | generic/cmd_bind.c:549-606 | one turn of the loop: on success the state moves on to k + 1; on failure it is the final state with spec k's error |
| ArrayDml.MakeVars | generic/cmd_bind.c:549-606 | the loop stops at the first failure; every variable made is fresh, holds its spec's shape and cells, and holds one reference |
| ArrayDml.ManySpec | generic/cmd_bind.c:608-634 | the run succeeds exactly when the statement exists, the info call answers and dpiStmt_executeMany succeeds, answering 0; it executes at most once, over all rows, with batch errors exactly for DML and commit-on-success when asked or under autocommit for DML and PL/SQL |
| ArrayDml.RunMany | generic/cmd_bind.c:608-634 | the info call, the mode, dpiStmt_executeMany and the row count, as ManySpec states |
| ArrayDml.VarsIssued | generic/cmd_bind.c:552 | every variable made was issued by the driver |
| ArrayDml.VarsOnce | generic/cmd_bind.c:552 | each variable made appears once among those made |
| ArrayDml.VarsAbsent | generic/cmd_bind.c:552 | a variable the counter had not reached is not among those made |
| ArrayDml.ReleaseVars | generic/cmd_bind.c:636-639 | dpiVar_release on every variable made, in order |
| ArrayDml.MakeAndRun | generic/cmd_bind.c:549-634 | making the variables and, when all are bound, the run, as ArrayDone states |
| ArrayDml.ArrayRunAsWritten | generic/cmd_bind.c:549-651 | as written, the variables are released only after a successful run |
| ArrayDml.ArrayRun | generic/cmd_bind.c:549-651 | corrected: the variables are released on every path, so every reference count ends as it began |
| ArrayDml.AsWrittenLeaks | generic/cmd_bind.c:554-628 | as written, a failed run leaves every variable it made holding one reference, though none of them existed before |
| ArrayDml.RefusedBindLeaksOne | generic/cmd_bind.c:598-604 | one ":x {1}" pair whose bind is refused under both spellings fails at the bind with one variable made |
| ArrayDml.SpecsFit | generic/cmd_bind.c:543-568 | lists that all match the first give every spec at least the row count of elements |
| ArrayDml.ArrayPath | generic/cmd_bind.c:450-652 | a length mismatch or no pair at all returns its error with nothing changed; otherwise the array run, with every count ending as it began |
| BindExec.ScanOptionsSpec | generic/cmd_bind.c:434-448 | the option loop stops at the first word that is neither -commit nor -arraydml, and reports each option exactly when it appears before that word, any number of times and in any order |
| BindExec.BindexecOptions | generic/cmd_bind.c:431-448 | the loop returns what ScanOptions gives from word 2 |
| BindExec.OpenBinds | generic/cmd_bind.c:654-656 | the statement's pending list and store are made when missing; a list already held is kept with its variables |
| BindExec.ReleaseAllPending | generic/cmd_bind.c:672-692 | releasing the old and the new pending variables lowers each count by the old ones alone |
| BindExec.ReleaseList | generic/cmd_bind.c:692 | Pendings_ReleaseAll empties the list and releases every variable on it |
| BindExec.BindexecFinish | generic/cmd_bind.c:658-695 | binding, then the run and the release when every bind succeeded, does what BindexecDone states |
| BindExec.RunRelease | generic/cmd_bind.c:670-695 | when every pair was bound: the run, then Pendings_ReleaseAll after a failed run as after a successful one; when a bind failed, nothing more |
| BindExec.BindexecOpened | generic/cmd_bind.c:658-695 | the pairs are bound onto the list and remembered, then the run and the release, as BindexecDone states |
| BindExec.BindexecStmt | generic/cmd_bind.c:654-695 | the scalar path: the store and the list opened, the pairs bound and remembered, the run and the release; a failed bind leaves the variables bound so far on the list |
| BindExec.ArrayStmt | generic/cmd_bind.c:450-652 | the array path once the statement is found, as ArrayPathDone states |
| BindExec.BindexecFound | generic/cmd_bind.c:450-695 | with -arraydml the array path, which leaves the stores and pending lists alone; without it the scalar path, which leaves the array variables alone |
| BindExec.Orabindexec | generic/cmd_bind.c:420-696 | fewer than two words, or an unknown handle, fail with nothing changed; otherwise the options are read and the array or the scalar path runs; only the named statement's status block and pending list can change, and events go only to the queues q names (which hold the one its errors reach) |

| Fetch.CharTypes | generic/cmd_fetch.c:28-41 | the character types are exactly VARCHAR, NVARCHAR, CHAR, NCHAR, LONG VARCHAR, CLOB and NCLOB |
| Fetch.UpperProperties | generic/cmd_fetch.c:43-50 | upper-casing changes no character outside 'a'..'z', leaves none of them, and a second pass changes nothing |
| Fetch.UpperCopy | generic/cmd_fetch.c:43-50 | the in-place loop over a fresh copy gives the name upper-cased character by character, leaving the original alone |
| Fetch.ZeroPad | generic/cmd_fetch.c:93-98 | a "%0wu" field is all digits and exactly w characters, or the number's own digit count when that is larger |
| Fetch.DigitsFit | generic/cmd_fetch.c:93-98 | a number below 10^w takes at most w digits, so its padded field is exactly w wide |
| Fetch.ZeroPadRoundTrip | generic/cmd_fetch.c:93-98 | a padded field reads back as the number written |
| Fetch.DatePartRoundTrip | generic/cmd_fetch.c:93-97 | the year, month and day of a timestamp read back from fixed positions of its text |
| Fetch.TimePartRoundTrip | generic/cmd_fetch.c:93-98 | the hours, minutes, seconds and microseconds read back from fixed positions of its text |
| Fetch.TimestampRoundTrip | generic/cmd_fetch.c:93-98 | a timestamp whose fields fit renders as YYYY-MM-DDTHH:MM:SS.ffffff, 26 characters, each field reading back as written and the fraction as nanoseconds / 1000 |
| Fetch.WithFlag | generic/cmd_fetch.c:176-199 | -asdict, -indexbynumber and -indexbyname set their own flag; every other lone word turns returnRows on |
| Fetch.ScanKeepsReturnRows | generic/cmd_fetch.c:176-199 | once returnRows is on, no later option word turns it off |
| Fetch.UnknownWordReturnsRows | generic/cmd_fetch.c:196-197 | a word orafetch does not understand makes the rows come back as a list |
| Fetch.BadMaxRejects | generic/cmd_fetch.c:186-188 | a -max value that is not a wide integer rejects the command with Tcl's message |
| Fetch.Settle | generic/cmd_fetch.c:201-203 | without returnRows the row limit is at least 1; with it the limit is kept |
| Fetch.ParseFetchOptions | generic/cmd_fetch.c:176-199 | the option loop from word 2 gives what the option scan gives |
| Fetch.FirstFailed | generic/cmd_fetch.c:205-218 | the first failed reply, when any reply failed, and none otherwise |
| Fetch.Describe | generic/cmd_fetch.c:205-218 | a failed column count is reported as dpiStmt_getNumQueryColumns; otherwise one column per reply, its character flag from its type and its name upper-cased when names are needed, or a failure reported as dpiStmt_getQueryInfo that some reply gave |
| Fetch.DescribeColumns | generic/cmd_fetch.c:205-231 | one character flag per column and, when names are needed, one upper-cased name per column; a failure of either pass is reported with the call that failed |
| Fetch.FirstFailedAt | generic/cmd_fetch.c:205-218 | when every reply before c succeeded, a failure at c is the first |
| Fetch.Quotient | generic/cmd_fetch.c:133 | the scaled amount in unbounded arithmetic does not exceed the size when the buffer exceeds the inline limit |
| Fetch.ScaledBelow | generic/cmd_fetch.c:133 | the scaled amount stays within the LOB's size |
| Fetch.ScaledBounds | generic/cmd_fetch.c:127-139 | the amount read is between 1 and the LOB's size and, unless it is 1, fills at most MaxInline bytes of the buffer the whole LOB would need |
| Fetch.ScaledWraps | generic/cmd_fetch.c:133 | as written, a BLOB of 2^44 bytes (buffer 2^44 bytes) gets an inline read of 1 byte, where the intended size·2^20/cap is 2^20 bytes |
| Fetch.ScaledAgreesBelowWrap | generic/cmd_fetch.c:133 | below 2^44 characters the 64-bit product does not wrap and both computations agree |
| Fetch.BytesValue | generic/cmd_fetch.c:99-108 | a character column's bytes become text decoded from UTF-8 (Tcl_NewStringObj), never longer than the bytes; any other column's a byte array |
| Fetch.FetchedTextRoundTrip | generic/cmd_fetch.c:99-108 | a character column holding the UTF-8 bytes of a string, standard or in Tcl's own form, reads back as that very string; ASCII bytes read one character each |
| Fetch.InlineValue | generic/cmd_fetch.c:121-150 | an inline read gives what InlineRead's calls give, and never a handle |
| Fetch.InlineReadBounded | generic/cmd_fetch.c:121-150 | a non-empty LOB is read once, from character 1: whole when its buffer fits MaxInline bytes, else a scaled amount between 1 and its size; an empty LOB is the empty value and is not read |
| Fetch.ReadInline | generic/cmd_fetch.c:121-150 | the value and the calls are InlineRead's: the bytes read, decoded from UTF-8 for a character column |
| Fetch.Convert | generic/cmd_fetch.c:52-155 | null data and unhandled types are the empty value; integers are integers (unsigned ones through the signed 64-bit cast); a timestamp is its text; a LOB becomes a handle exactly when the statement has an owner with inline LOBs off, and only the inline read can fail |
| Fetch.Entry | generic/cmd_fetch.c:369-374 | a column adds one item, its value, or two with -asdict, its name and its value |
| Fetch.RowPrefix | generic/cmd_fetch.c:343-375 | the row of the first k columns has one item per column (two with -asdict) unless a column failed |
| Fetch.CellValueOk | generic/cmd_fetch.c:346-357 | a column whose reply arrived and converts has a value and no fault |
| Fetch.AsDictAlternates | generic/cmd_fetch.c:369-374 | with -asdict the row alternates each column's name and value; its values, handles and fault are those of the plain row |
| Fetch.AppendAlternates | generic/cmd_fetch.c:369-374 | one more column keeps a row and its -asdict form alternating |
| Fetch.FaultIndependent | generic/cmd_fetch.c:343-375 | whether a row converts, and how many LOB handles it makes, depend neither on the handle counter nor on -asdict |
| Fetch.ColumnConverts | generic/cmd_fetch.c:343-375 | when a whole row converts, each of its columns converts |
| Fetch.InlineMakesNoHandles | generic/cmd_fetch.c:109-119 | with LOBs read inline no handle is made |
| Fetch.Keys | generic/cmd_fetch.c:377-436 | one key per column: "1".."n" with -indexbynumber (which wins over -indexbyname), else the column names as described (upper-cased) |
| Fetch.ElementNamesDistinct | generic/cmd_fetch.c:396-424 | distinct keys name distinct array elements |
| Fetch.AssignReads | generic/cmd_fetch.c:377-436 | after the writes, each element whose key appears once holds its column's value and every other variable keeps its value |
| Fetch.AssignKeepsOthers | generic/cmd_fetch.c:377-436 | variables that are not elements of the array are untouched |
| Fetch.ArrayByNumber | generic/cmd_fetch.c:378-407 | with -indexbynumber element arr(j) holds column j's value, for j from 1 to the column count |
| Fetch.ReplyAt | generic/cmd_fetch.c:328-340 | a row is answered only within the replies given; past them the fetch finds no row |
| Fetch.FetchCounts | generic/cmd_fetch.c:318-475 | the loop fetches at least the rows already counted and at most maxRows when maxRows is positive; the list holds one row per fetched row with returnRows and none without; -command runs once per fetched row |
| Fetch.FetchResult | generic/cmd_fetch.c:472-494 | with returnRows the result is the list of fetched rows; without it, 0 when a row was fetched and 1403 when none was; at most maxRows rows when maxRows is positive |
| Fetch.NoRowsAtAll | generic/cmd_fetch.c:339-494 | when the first fetch finds no row nothing is converted or evaluated, and the result is 1403, or an empty list with returnRows |
| Fetch.FastPathAgrees | generic/cmd_fetch.c:233-316 | without an indexed -dataarray and without -resultvariable, the single-row path gives what the general loop with a limit of one gives |
| Fetch.SevenInArray | generic/cmd_fetch.c:377-407 | on a one-column row holding 7 the general loop writes 7 to a(1) |
| Fetch.SevenFetched | generic/cmd_fetch.c:318-475 | that general loop fetches the one row and stops at the limit |
| Fetch.FastPathSkipsArray | generic/cmd_fetch.c:233-316 | as written, `orafetch S -dataarray a -indexbynumber` never sets a(1) for that row, while the general loop sets it to 7 |
| Fetch.QueueIs | generic/util.c:209-214 | the queue a statement's error is posted to depends only on its name, its owner and the owner's thread |
| Fetch.ValueToObj | generic/cmd_fetch.c:52-155 | the value is Convert's; a LOB handed out is a new handle "oraB<n>" with one more reference and the only change to the handles, counter and counts; otherwise nothing but the status block changes; a failed LOB call is recorded on the statement and gives no value |
| Fetch.ColumnValue | generic/cmd_fetch.c:346-357 | column j's reply converted by ValueToObj: its value or fault, and the handles made, are CellValue's; a failure is recorded on the statement |
| Fetch.RowStops | generic/cmd_fetch.c:346-368 | a row that failed at a column ends with that failure |
| Fetch.RowNext | generic/cmd_fetch.c:343-375 | one column moves the row's bookkeeping from j to j + 1 columns |
| Fetch.ConvertColumn | generic/cmd_fetch.c:343-375 | column j is appended, after its name with -asdict, or its failure is recorded on the statement; the handles it makes are registered under the next counter values |
| Fetch.ConvertRow | generic/cmd_fetch.c:342-375 | the loop over the columns builds RowPrefix of all of them; the first failure is recorded on the statement and ends the row |
| Fetch.ArrayColumn | generic/cmd_fetch.c:379-434 | column j is read and converted again (a LOB becomes one more handle) and written to arr(key) |
| Fetch.WriteElement | generic/cmd_fetch.c:396-424 | one element is written and no other variable changes |
| Fetch.ArrayNext | generic/cmd_fetch.c:377-436 | one column moves the array pass's bookkeeping from j to j + 1 columns |
| Fetch.ArrayPass | generic/cmd_fetch.c:377-437 | the array pass of a row writes every column's value under its key, as ArrayStep says |
| Fetch.PublishRow | generic/cmd_fetch.c:439-470 | -datavariable gets the row; -command runs and a non-OK outcome stops the loop with it; the row is kept only with returnRows |
| Fetch.DeliverRow | generic/cmd_fetch.c:377-470 | the array is written when one is asked for, then the row is published |
| Fetch.FetchRow | generic/cmd_fetch.c:342-470 | one fetched row is converted, then delivered; a conversion failure stops the loop |
| Fetch.FetchLoop | generic/cmd_fetch.c:318-475 | the loop ends as FetchFrom does: after maxRows rows when it is positive, at the end of the rows, or at the first failure, which is recorded on the statement |
| Fetch.FetchOne | generic/cmd_fetch.c:326-470 | one fetch and its row either end the loop as FetchFrom does, or leave FetchFrom's answer for the rows after it unchanged |
| Fetch.ShapeOf | generic/cmd_fetch.c:205-208 | a statement without a native statement fails the column count as a null handle |
| Fetch.DescribeStmt | generic/cmd_fetch.c:205-231 | the column passes give DescribeColumns' answer, and a failure is recorded on the statement |
| Fetch.FetchStmt | generic/cmd_fetch.c:205-494 | corrected behaviour (Findings row 6), the single-row path taken as the loop: the columns are described, the loop runs and the result follows FetchCommand; a driver failure is recorded on the statement |
| Fetch.FinishFetch | generic/cmd_fetch.c:477-494 | -resultvariable gets the rows (an empty list without returnRows) and the result is Finish's |
| Fetch.Orafetch | generic/cmd_fetch.c:157-496 | corrected behaviour (Findings row 6): fewer than two words is a usage error and an unknown statement "invalid statement handle"; a rejected option scan ends with its error and changes nothing; otherwise the result, the variables, the scripts run, the handles made and the status block are FetchCommand's on the settled options; no other statement's status block can change |
| StmtCmd.WrongArgsAfterHandle | generic/cmd_stmt.c:163 | a usage error after the handle word fails with -errorcode {TCL WRONGARGS} |
| StmtCmd.AsInt | generic/cmd_stmt.c:58-93 | the (int) cast of a uint32_t: values below 2^31 are kept, values from 2^31 wrap to negative |
| StmtCmd.DashOptional | generic/cmd_stmt.c:101-169 | "-name" and "name" select the same setting |
| StmtCmd.ClassMaskBits | generic/cmd_stmt.c:221-234 | the error-class mask has only bits 0x01 and 0x02, set exactly when some word is "network" or "connlost" respectively |
| StmtCmd.ClassesRoundTrip | generic/cmd_stmt.c:84-234 | the classes read back list network and connlost exactly when some word named them, at most two entries, and setting the list read back gives the same mask |
| StmtCmd.AddClass | generic/cmd_stmt.c:228-232 | one word ors in its class bit, if any |
| StmtCmd.ClassMaskOf | generic/cmd_stmt.c:226-233 | the loop over the words gives ClassMask of them |
| StmtCmd.KeyNamesRoundTrip | generic/cmd_stmt.c:170-241 | the eleven names and the settings correspond one to one |
| StmtCmd.ListingCoversKeys | generic/cmd_stmt.c:52-97 | the listing names every setting, and none twice |
| StmtCmd.EffectiveFetchArraySize | generic/cmd_stmt.c:60-111 | the fetch array size shown is always positive: the connection's own when set, else the default |
| StmtCmd.ListingAgreesWithGet | generic/cmd_stmt.c:52-160 | the listing has 22 items, the eleven names in order, each followed by exactly what a get of that name answers |
| StmtCmd.RefreshForAgrees | generic/cmd_stmt.c:55-126 | reading back only the value shown gives what the full read-back shows for it |
| StmtCmd.SetKeepsOthers | generic/cmd_stmt.c:170-241 | an accepted word changes only the setting it is given for |
| StmtCmd.SetThenGet | generic/cmd_stmt.c:170-241 | a get after an accepted word shows the integer clamped at 0 (the default fetch array size for a non-positive value), the boolean, the double word, or the recognised classes |
| StmtCmd.FailureKeepsEarlierPairs | generic/cmd_stmt.c:170-241 | a rejected word or unknown name leaves the settings as the earlier pairs made them; a refused driver setter keeps the value given, and only the cache size and call timeout on a live session can be refused |
| StmtCmd.LastPairWins | generic/cmd_stmt.c:166-242 | of two accepted words for the same setting, the second decides |
| StmtCmd.NoSessionNoDriver | generic/cmd_stmt.c:177-199 | a handle without a session never stops on a refused driver setter |
| StmtCmd.ReadBackAll | generic/cmd_stmt.c:53-72 | the listing first reads the cache size and call timeout back from a live session that answers |
| StmtCmd.ReadBack | generic/cmd_stmt.c:103-127 | a get reads back only the value it shows |
| StmtCmd.StoreInt | generic/cmd_stmt.c:170-239 | an integer word is stored, normalised, in its own setting only |
| StmtCmd.SetPair | generic/cmd_stmt.c:167-241 | one pair is applied as SetOneSpec says and the connection's settings become its result |
| StmtCmd.SetPairs | generic/cmd_stmt.c:166-242 | the pairs from word 2 are applied in order until one stops the loop, as SetFrom says |
| StmtCmd.Report | generic/util.c:195-241 | the end of oraconfig is answered, and a failure is recorded on the handle |
| StmtCmd.ConfigConn | generic/cmd_stmt.c:51-245 | list, get or set the connection's settings as ConnConfigSpec says: two words list, three get, an odd count is a usage error, pairs set and then list |
| StmtCmd.StmtSetThenGet | generic/cmd_stmt.c:247-307 | a get after an accepted set shows the fetch array size set (default for non-positive), and the prefetch count clamped at 0 when the statement has an owner and no native statement answers for itself |
| StmtCmd.StmtListingAgreesWithGet | generic/cmd_stmt.c:248-258 | the statement listing is fetchrows and prefetchrows, each as a get of that name answers |
| StmtCmd.ConfigStmt | generic/cmd_stmt.c:247-307 | list, get or set fetchrows and prefetchrows as StmtConfigSpec says; setting prefetchrows changes the owner connection's count |
| StmtCmd.OraconfigConn | generic/cmd_stmt.c:36-49 | a name that is not a statement is looked up as a connection (which may adopt one) and configured as ConfigConn says; the handle table and the counts change only as Resolved states, and no other connection can change |
| StmtCmd.Oraconfig | generic/cmd_stmt.c:36-49 | the handle is a statement first, then a connection; neither gives "invalid handle"; the settings follow the configuration specs; a connection is resolved as Resolved states; only the named handle (and a statement's owner's prefetch rows) can change |
| StmtCmd.Oraopen | generic/cmd_stmt.c:309-323 | a new statement "oraS<n>" owned by the connection named, with no native statement; no existing statement handle is replaced; the handle table and the reference counts change only as resolving the name does (Resolved: unchanged on a local hit, the adopted proxy added with one more reference to the session, otherwise the name dropped) |
| StmtCmd.CloseNative | generic/cmd_stmt.c:347-351 | a native statement is closed and released once and cleared |
| StmtCmd.CancelAndJoin | generic/cmd_stmt.c:337 | corrected behaviour (Findings row 1), where the code passes timeout 0: the cancelling wait, given no limit, breaks the entry's session, joins the worker and releases what the entry held |
| StmtCmd.ForgetKey | generic/cmd_stmt.c:340-344 | the statement's remembered binds are dropped and its pending variables released |
| StmtCmd.JoinAndForget | generic/cmd_stmt.c:337-345 | corrected behaviour (Findings row 1): the wait joins any asynchronous execution, then the statement's binds and pending variables are forgotten |
| StmtCmd.Reset | generic/cmd_stmt.c:368-377 | corrected behaviour (Findings row 1): the wait, given no limit, the forgetting and the native statement's close and release, each reference released once; the handle stays |
| StmtCmd.WaitAsWritten | generic/cmd_stmt.c:337 | the wait as written, with timeout 0: a running entry whose worker has not finished is kept registered, marked cancelled, with nothing released or executed; otherwise the worker is joined and the entry's references released |
| StmtCmd.ForgetAndClose | generic/cmd_stmt.c:340-351 | the binds and pending variables of the key are forgotten and the native statement closed, releasing the pending variables and then the statement |
| StmtCmd.AsWrittenRefs | generic/cmd_stmt.c:337-351 | the references released by the wait and then by the forgetting and closing: without the entry's own references when it was abandoned, with them otherwise |
| StmtCmd.ResetAsWritten | generic/cmd_stmt.c:337-351 | the reset as written: an abandoned entry stays registered and running, keeping its references, while the binds and pending variables are forgotten and the native statement closed and released under it; otherwise as Reset |
| StmtCmd.OracloseAsWritten | generic/cmd_stmt.c:325-353 | oraclose as written: the answer is 0, the native statement is closed, and a statement whose worker is still running keeps its entry, running, with the same held references; a wrong word count or unknown statement changes nothing; only the named statement and its pending list can change |
| StmtCmd.Oraclose | generic/cmd_stmt.c:325-355 | corrected behaviour (Findings row 1): a wrong word count or unknown statement fails with nothing changed; otherwise the statement is reset and 0 answered, the handle staying registered; only the named statement and its pending list can change |
| StmtCmd.ParseFailure | generic/cmd_stmt.c:391-412 | no failure exactly when getInfo succeeds and, for a query, getBindCount succeeds and, without placeholders, execute succeeds; a failure names one of those three calls |
| StmtCmd.Typed | generic/cmd_stmt.c:389 | the statement type is recorded from getInfo and nothing else in the status block changes |
| StmtCmd.ParseRuns | generic/cmd_stmt.c:404-406 | oraparse executes once, in default mode, exactly for a query without placeholders |
| StmtCmd.ParseReportsBothHandles | generic/cmd_stmt.c:391-415 | the answer is 0 exactly when every call after the prepare succeeds; a failure is recorded with the call's name on the statement and its owner alike |
| StmtCmd.ParseRunsBindlessQuery | generic/cmd_stmt.c:397-415 | a query without placeholders that runs answers 0, typed as a query |
| StmtCmd.ParseRefused | generic/cmd_stmt.c:379-383 | a refused prepare is recorded on the statement and on its owner |
| StmtCmd.ParseRun | generic/cmd_stmt.c:379-415 | prepare, then the type, info, bind count and execution as ParseEnd says, with each failure recorded on both handles |
| StmtCmd.ParsePrepared | generic/cmd_stmt.c:385-415 | once prepared, the calls after the prepare end as ParseEnd says |
| StmtCmd.ParseStmt | generic/cmd_stmt.c:368-415 | corrected behaviour (Findings row 1): the reset, waiting without a limit, then ParseRun; ParseEffect states the result: a refused prepare is recorded on the statement and on its owner, otherwise both status blocks and the answer are ParseEnd's |
| StmtCmd.Oraparse | generic/cmd_stmt.c:357-416 | corrected behaviour (Findings row 1): a wrong word count or unknown statement fails with nothing changed; otherwise the statement is reset and the new SQL prepared and, for a query without placeholders, executed; the statement and its owner end as ParseEffect states, and no other statement, owner or pending list can change |
| Logon.IndexOf | generic/cmd_logon.c:31-32 | strchr: the position found holds the character and none before it does; none means it does not occur |
| Logon.ParseConnectJoins | generic/cmd_logon.c:25-64 | without external authentication the parts join back into the connect string |
| Logon.ParseConnectParts | generic/cmd_logon.c:40-50 | "user/pw@db" splits into that user, password and database |
| Logon.ExternalAuthentication | generic/cmd_logon.c:33-39 | the OS authenticates exactly when the string starts with '/', and then no user or password is passed |
| Logon.LogonStep | generic/cmd_logon.c:80-125 | one option step consumes at least its own word and no more words than there are |
| Logon.ScanLogonOptions | generic/cmd_logon.c:80-125 | the option loop from word 2 gives LogonScan |
| Logon.StepShift | generic/cmd_logon.c:80-125 | an option step reads only the words from its own on |
| Logon.LogonScanShift | generic/cmd_logon.c:80-125 | the option scan reads only the words from its start on |
| Logon.PoolSpellings | generic/cmd_logon.c:82-104 | -pool as one three-element list and as three words scan alike |
| Logon.DanglingLogonOption | generic/cmd_logon.c:84-123 | an option as the last word is "unknown or incomplete option" |
| Logon.U32 | generic/cmd_logon.c:143-145 | the (uint32_t) cast is below 2^32 and keeps values already in range |
| Logon.RequestOf | generic/cmd_logon.c:127-159 | the driver gets a pool request exactly with -pool, and the parsed connect string |
| Logon.OpenSession | generic/cmd_logon.c:138-159 | a session from a new pool or directly, one reference each; a refused create leaves the driver alone; a pool whose first session is refused is closed and released; a pool whose first session is refused ends with no reference |
| Logon.Publish | generic/cmd_logon.c:161-184 | the session becomes a new connection "oraL<n>", registered and published as owned, tied to this interpreter and thread with a 250 ms debounce |
| Logon.TieToOwner | generic/cmd_logon.c:174-184 | the owner, thread, callback and debounce fields are set, and nothing the handle machinery reads changes |
| Logon.Oralogon | generic/cmd_logon.c:66-188 | a usage error or rejected option calls no driver; a driver refusal gives its error and no handle; otherwise a new owned connection "oraL<n>" is registered, published and answered; the new session (and pool) hold one reference each and nothing is closed; a refusal leaves the driver alone, or, for a refused first session of a new pool, the pool closed with no reference |
| Logon.AddThenRelease | generic/state.c:298-299 | an adopted session's reference, taken and given back, leaves every count as it was |
| Logon.DropConn | generic/cmd_logon.c:202-211 | the connection leaves the table; an owner closes its session and erases its directory entry; the pool is closed; every reference it held is released |
| Logon.Oralogoff | generic/cmd_logon.c:190-215 | a wrong word count or unknown handle changes nothing; otherwise the handle is dropped, and logging off an adopted connection leaves the session, the directory and every count as they were; no other connection can change |
| Logon.Oraautocom | generic/cmd_logon.c:217-232 | the flag read is stored and answered as 0 or 1; a word that is not a boolean gives Tcl's error and keeps the flag; the handle table and the reference counts change only as resolving the name does (Resolved: unchanged on a local hit, the adopted proxy added with one more reference to the session, otherwise the name dropped); no other connection's flag can change |
| Logon.Orabreak | generic/cmd_logon.c:234-247 | a break is requested on the session; a refusal is answered and recorded on the connection, otherwise 0; the handle table and the reference counts change only as resolving the name does (Resolved: unchanged on a local hit, the adopted proxy added with one more reference to the session, otherwise the name dropped); no other connection's status can change |
| Logon.Orainfo | generic/cmd_logon.c:249-263 | the answer is the list {autocommit flag}; the handle table and the reference counts change only as resolving the name does (Resolved: unchanged on a local hit, the adopted proxy added with one more reference to the session, otherwise the name dropped) |
| LobCmd.U64 | generic/cmd_lob.c:48-96 | the (uint64_t) cast keeps non-negative values and adds 2^64 to negative ones |
| LobCmd.Wide | generic/cmd_lob.c:38 | the (Tcl_WideInt) cast is a wide integer and keeps sizes below 2^63 |
| LobCmd.CastsRoundTrip | generic/cmd_lob.c:38-48 | the two casts undo each other |
| LobCmd.ScanOptions | generic/cmd_lob.c:42-99 | the option loop gives ScanOpts from its first option word |
| LobCmd.ScanAppend | generic/cmd_lob.c:42-57 | an option pair appended to words that scan cleanly sets that option and keeps the others |
| LobCmd.DanglingOptionRefused | generic/cmd_lob.c:44-55 | an option with no value after it is "unknown option" |
| LobCmd.DefaultAmountReachesEnd | generic/cmd_lob.c:58-63 | from an offset within the LOB the default amount is positive and ends exactly at its last character |
| LobCmd.ReadWithoutAmount | generic/cmd_lob.c:58-81 | without an amount the size is asked and the read goes from the offset to the end; from past the end it answers the empty value after asking only the size |
| LobCmd.ReadWithAmount | generic/cmd_lob.c:64-81 | with an amount the size is not asked: the buffer size and that many characters from the offset, answered as bytes |
| LobCmd.WriteCalls | generic/cmd_lob.c:87-103 | writing no bytes (an empty value, or under Tcl 9 a string with a character above U+00FF) makes no call and answers 0; otherwise the bytes are written once at the offset |
| LobCmd.WriteWideStringWritesNothing | generic/cmd_lob.c:87-103 | a string with a character above U+00FF writes nothing and answers 0 |
| LobCmd.OnlyReadReads | generic/cmd_lob.c:34-124 | a subcommand makes at most three calls, and only read reads bytes, last |
| LobCmd.ReadSteps | generic/cmd_lob.c:58-81 | the read after its options ends and calls as ReadRun says |
| LobCmd.RunSub | generic/cmd_lob.c:34-124 | the subcommands other than close end and call as LobSub says |
| LobCmd.Oralob | generic/cmd_lob.c:23-125 | fewer than three words is a usage error; a name not a live LOB is "invalid lob handle"; close closes, releases and clears the LOB; any other subcommand ends as LobSub says, with a failure recorded on the handle |
| MsgCmd.FieldNames | generic/cmd_msg.c:43-90 | a single option is answered exactly for the twelve keys |
| MsgCmd.Pairs | generic/cmd_msg.c:91-121 | two items per key |
| MsgCmd.PairsAt | generic/cmd_msg.c:91-121 | item 2k is key k and item 2k + 1 its field |
| MsgCmd.PairsAppend | generic/cmd_msg.c:91-121 | the pairs of two key lists are the pairs of each in turn |
| MsgCmd.AllAgreesWithFields | generic/cmd_msg.c:91-104 | "all" is 12 items: rc, error, rows, peo, ocicode and sqltype, each followed by what that option answers |
| MsgCmd.AllxExtendsAll | generic/cmd_msg.c:105-119 | "allx" is "all" followed by fn, action, sqlstate, recoverable, warning and offset, each followed by what that option answers |
| MsgCmd.UnknownOptions | generic/cmd_msg.c:122 | oramsg refuses exactly the words other than the twelve keys, "all" and "allx" |
| MsgCmd.Oramsg | generic/cmd_msg.c:21-123 | fewer than three words is a usage error; a connection, then a statement, is looked up, neither giving "invalid handle"; a known option answers from the status block and leaves it; an unknown one records rc -1 and "unknown option"; resolving a connection changes the handle table and the counts only as Resolved states, and no other handle's status can change |

## Left out

- generic/dpi.c (ODPI-C itself) is not part of this model: every `dpi*` call is an oracle answer passed in as a parameter, and `Native.Driver` records only reference counts, closes, executions, bindings, breaks, array cells and prepared text.
- generic/oratcl_odpi.c (package bootstrap and command registration), generic/cmd_tx.c (commit and rollback) and generic/cmd_desc.c (describe) are not part of this model.
- Threads, mutexes and `Tcl_Sleep`: the asynchronous worker is one atomic finishing step, and polling runs against a virtual clock in 10 ms steps, the task's finishing time being a parameter.
- The Tcl event queue and timers: posting appends to a queue object, and event delivery and the timer firing are explicit steps; script evaluation is recorded, and its outcome is a parameter.
- Floating point: `DOUBLE` and `FLOAT` cells, `foBackoffFactor` and double bind values are opaque tokens; the integral-double narrowing of generic/cmd_fetch.c:65-90 is not modelled.
- Tcl's own parsing: integers are integer values or decimal text (no hexadecimal, octal, binary, surrounding spaces or digit separators), booleans and doubles are recognised as tokens, and lists are list values. Tcl's error messages are reproduced for integer overflow only; for other refused words only the `-errorcode` is. Tcl_GetIntFromObj is modelled for a C long of 64 bits; where long has 32 bits (64-bit Windows) the wrap from the top of the unsigned long range does not arise in the same window.
- The reference counts of `Tcl_Obj` values and `Tcl_Alloc`/`Tcl_Free` are not modelled; only native ODPI-C reference counts are.
- The distinction between `Tcl_NewIntObj` and `Tcl_NewWideIntObj` is not modelled: both give the same integer value.
- `DPI_DEFAULT_PREFETCH_ROWS` is not defined in the sources modelled; the model uses ODPI-C's published default, 2, as a named constant.
- Script outcomes other than success and error (`break`, `continue`, `return`) are not distinguished: `orafetch` stops on any non-OK outcome of `-command`, as the code does, and passes it on as an error.
- `Tcl_ObjSetVar2` is assumed to succeed: the error paths of generic/cmd_fetch.c:285-293, 396-406, 424-434 and 440-450 (a variable that cannot be set, such as an array element of a scalar) are not modelled.
- Fetch.ArrayColumn: the `-dataarray` pass reads each column again; the model gives the driver the same answers as on the first pass, so a row that converted once converts again, and the unchecked NULL that ValueToObj could hand to `Tcl_ObjSetVar2` at generic/cmd_fetch.c:393-396 and 423-424 does not arise.
- Fetch.ValueToObj: the LOB calls an inline read makes are stated on InlineRead (see Fetch.InlineReadBounded and Fetch.ReadInline), not on this method, because the driver view keeps no log of LOB calls.
- BindRules.NulTestIsDead: a string form made by Tcl_NewStringObj straight from fetched bytes (generic/cmd_fetch.c:104, 148) keeps a raw zero byte, on which the embedded-NUL test does fire; the model gives every string value the form Tcl itself builds (Tcl.Rep), so it does not capture that case.
- Tcl.Decode: bytes that form no UTF-8 sequence are read as the character of their own value (Latin-1); the cp1252 mapping Tcl 9 gives stray bytes 0x80-0x9F, and three-byte encodings of surrogates, are not modelled.
- Fetch.ValueToObj: the link between a LOB handle and its native LOB is stated per conversion (the new handle holds that LOB); the interpreter's LOB table is stated as a whole through the handles made.
- Fetch.CellAt: a `dpiStmt_getQueryValue` reply the answers do not cover reads as null data.
- Native handles that were never created by the driver: command methods require that every native object they release was issued by the driver (`AllIssued`), which the C code cannot express.
- Async.CancelAndJoinAllForConn: the registry is snapshotted and walked as in the code; interleaving with other threads between the snapshot and each wait is not modelled. The snapshot order, which the hash table decides, is returned as keys and names. The method requires that no two keys share a pending list (PendingsApart), which the code meets by allocating each list on its own.
- Teardown.DeleteInterpData: the order in which each Tcl hash table yields its keys is a parameter (any enumeration of the keys, one per table), and the contracts hold for every such order. The three tables are emptied together after the third loop, where the code deletes each right after its own loop; nothing runs in between that reads them.
- Logon.Oralogoff: `oralogoff` frees the connection record (generic/cmd_logon.c:211, generic/state.c:178), but the statements opened on it keep pointing at it. Later `orasql` and `oraparse` on such a statement read the freed record's session (generic/cmd_exec.c:343, generic/cmd_stmt.c:379), `oraconfig` reads and writes its `prefetchRows` (generic/cmd_stmt.c:252, 269, 298-299), and errors are routed to it (generic/util.c:211-214). Freed memory is not part of this model: the Conn object stays allocated as oralogoff left it, without session or pool. ExecCmd.Orasql, ExecCmd.PrepareRun, StmtCmd.Oraparse, StmtCmd.ParseStmt, StmtCmd.ConfigStmt, StmtCmd.Oraconfig and Status.StmtErrorsRouteToOwner assume that the owner outlives `oralogoff`. On such a statement they read that record, and a prepare answers the null-handle driver error of ExecCmd.PrepareReply: the evidently intended behaviour, not what the code does.
- Handle names are drawn from one counter per model (`Naming.Namer`), standing for the process-wide counter of util.c; its lock is not modelled.
- Naming.Namer.NewHandleName: the counter is an unbounded natural number, where generic/util.c:33-36 keeps a C `static int`; after 2^31-1 names the C increment overflows (undefined behaviour in C) and names can repeat, which the model does not capture: Naming.NamesDistinct holds here for every counter.

## Findings

| source | as written | input that shows it | evidently intended | confidence | as-written member | corrected member |
|---|---|---|---|---|---|---|
| generic/state.c:185, generic/cmd_stmt.c:337, generic/cmd_stmt.c:368, generic/async.c:366-367 | the waits before a statement is freed, closed or re-parsed pass timeout 0, commented "no timeout"; the wait loop gives up at once with -3123 when the worker is still running, so the entry and its references stay while the native statement is closed under the worker | a statement whose `oraexecasync` worker has not finished when `oraclose` is called or the interpreter is deleted | wait without a limit (a negative timeout), joining the worker and releasing its references | not executed | Teardown.FreeStmtAsWritten, Async.ZeroTimeoutAbandons, StmtCmd.ResetAsWritten, StmtCmd.OracloseAsWritten | Teardown.FreeStmt, StmtCmd.Reset, StmtCmd.Oraclose |
| generic/cmd_bind.c:554-558, generic/cmd_bind.c:599-604, generic/cmd_bind.c:610-614, generic/cmd_bind.c:624-628 | the `-arraydml` error paths return after `dpiConn_newVar` without releasing the variables already made; only the success path releases them (636-639) | `orabindexec S -arraydml :x {1}` where the statement refuses the name `x` under both spellings: one variable is made and never released | release every variable made on every exit path | not executed | ArrayDml.ArrayRunAsWritten, ArrayDml.AsWrittenLeaks, ArrayDml.RefusedBindLeaksOne | ArrayDml.ArrayRun |
| generic/cmd_bind.c:344-349, generic/cmd_exec.c:196 | the embedded-NUL test looks for a zero byte in `Tcl_GetStringFromObj`'s bytes, which hold none when Tcl built the string form itself (Tcl stores U+0000 as C0 80), so a string holding NUL typed in a script is bound as plain bytes, not as a BLOB | `orabind S :x "a\0b"`, a string value under a plain name | bind a string holding U+0000 as a BLOB, like a byte array | not executed | BindRules.NulTestIsDead, BindRules.NulStringBoundAsBytes | BindRules.ScalarBindDecision, BindRules.CorrectionOnlyForNul |
| generic/cmd_exec.c:356-377 | `oraplexec` checks no minimum word count and reads `objv[1]` even when there is none | `oraplexec` with no argument | fewer than two words is a usage error, as in every other command | not executed | ExecCmd.PlexecAsWrittenReadsPastEnd | ExecCmd.PlexecStartInBounds |
| generic/cmd_fetch.c:133 | the scaled inline amount multiplies size by 2^20 in 64 bits, which wraps for sizes of 2^44 and more | a BLOB of 2^44 bytes, whose buffer is 2^44 bytes: the read shrinks to 1 byte instead of 2^20 | size·2^20/cap computed without overflow, at least 1 | not executed | Fetch.ScaledWraps, Fetch.ScaledAgreesBelowWrap | Fetch.ScaledBounds, Fetch.InlineReadBounded |
| generic/cmd_fetch.c:233-316 | the single-row path taken without `-returnrows` under the default limit of one row writes neither `-dataarray` nor `-resultvariable` | `orafetch S -dataarray a -indexbynumber` on a one-column query whose row holds 7: `a(1)` is never set | the single-row path behaves as the general loop with a limit of one row, which sets `a(1)` to 7 | not executed | Fetch.FastPathSkipsArray | Fetch.FastPathAgrees, Fetch.FetchResult, Fetch.Orafetch |
