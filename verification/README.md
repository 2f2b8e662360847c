# Verified models of the SQL-client module runtime and of four smaller algorithms

This project models the parts of vsql that are written in C, JavaScript and Python and that carry the hardest
properties, and proves those properties for every input and every run.

The largest part is the runtime that is behind every generated SQL module (`vsql/std_2_*.c`). Several modules of a
program share one agent. It has a list of SQL-connections, one of which is the current one, a slot for the statement of
each cursor, prepared statements, SQL descriptor areas, and a diagnostics area that every statement rebuilds. The SQL/CLI
below it is a class (`SqlCli.Cli`) whose methods pick any outcome that the header, the sources and the tests of libvsql
allow, so what is proved holds whatever the engine answers.

| file | what it models |
|---|---|
| `SqlCli.dfy` | the routines of the CLI that the runtime calls: statement handles, their phases, each handle that was allocated or freed, and what the CLI was asked to do, in order |
| `Diagnostics.dfy` | the diagnostics area and the status parameter |
| `Ownership.dfy`, `States.dfy` | which cursor, prepared statement or running call owns each statement handle, and the steps that keep the rules of the agent |
| `Requests.dfy`, `Effects.dfy` | what the CLI is asked to do for a statement, and what each statement that isn't a connection statement does, with its status |
| `Runtime.dfy` | the functions of the runtime, as methods of the agent |
| `Runs.dfy`, `CursorRuns.dfy` | any sequence of statements from any modules, until the program exits, and the cursors that are open in it |
| `Utf8.dfy`, `Retrieval.dfy` | the assignment of a column to a host parameter: pieces that split characters, cutting, and padding in place |
| `Descriptors.dfy`, `DescriptorAreas.dfy` | item descriptor areas, and the areas of an SQL-connection |
| `Names.dfy`, `Scanner.dfy` | the identifier parser with the printer it undoes, and the scanner of placeholders with the second counter of the application |
| `CStrings.dfy`, `Glob.dfy` | the pattern matcher of the test runner |
| `Csv.dfy`, `GuessType.dfy` | the sampler of CSV and TSV files, and the number type that is guessed from a sample |
| `AlterTable.dfy`, `EditTable.dfy`, `TableEditor.dfy` | the ALTER TABLE script of an edited table, what it does, and the editor |
| `RequestLoop.dfy`, `SavedOrder.dfy` | the loop of an IMPORT or EXPORT tab that asks the server for a command, and what the server saves |
| `RuleLabels.dfy`, `StandardIndex.dfy`, `RuleDepths.dfy` | the parser of the numbered rules of the standard, and the rule that a label has that could be at two depths |

Code that changes a state step by step is a class or a method with loops, each proved against a function or predicate
that says what it computes. The main results are about these: `Runs.Run`, `CursorRuns.InvalidWhenEnded`,
`Retrieval.Assign`, `DescriptorAreas.Run`, `Glob.ShouldFilterTest`, `Scanner.Scan`, `Names.ToNameRoundTrip`,
`Csv.PrintParse`, `GuessType.GuessDecimalHoldsAll`, `TableEditor.EditedScriptWorksIff`, `StandardIndex.Rules`,
`RequestLoop.OneInFlight` and `SavedOrder.EndsLatestIff`.

## Where the code isn't what its comments say

The model follows the code.

- The SQL-transaction of an SQL-connection isn't active after a COMMIT that fails
  (`vsql/std_2_13_1_sql_client_module_definition.c:783-790`), so `active` isn't the state of the CLI.
- Only 9 letters of a word are compared, so a name that starts with INTERSECT counts as INTERSECT
  (`vsql/std_2_20_1_description_of_sql_descriptor_areas.c:17,53-56`).
- COUNT can be more than the occurrences of a descriptor area (`vsql/std_2_20_7_prepare_statement.c:254-263`).
- EXECUTE closes the cursor of a query only if its columns were described when it was prepared
  (`vsql/std_2_20_7_prepare_statement.c:569-598`). The cursor is left open exactly if the query succeeds and has no
  described columns (`Runtime.Agent.ExecuteBound`), and then the next EXECUTE is 24000 (`Runs.ExecuteTwice` is such a
  run).
- The ALTER TABLE script is said to be in an order that works (`app/app_alter_table.js:26-27`). It isn't for every edit
  that the editor allows: the NOT NULL of a column of the PRIMARY KEY isn't locked but can't be dropped, and a removed
  column of the PRIMARY KEY can be replaced by a new one with its name, when the PRIMARY KEY looks the same. A new column
  can also be entered in quotes with the identifier of another column (`TableEditor.SameIdentifierFails`), and the engine
  prints a name that starts with a dollar sign without quotes, so it can't be read back (`TableEditor.DollarFails`).
  `TableEditor.EditedScriptWorksIff` says exactly when it works.
- Only one request is sent at a time so that an earlier one can't finish last (`app/app_import.js:242-244`). It still can
  exactly if a fetch throws before the server was done (`SavedOrder.EndsLatestIff`). A preview can be shown for the file
  before the one that's chosen, exactly if another one was chosen after the last change of the form
  (`RequestLoop.ShowsOtherFileIff`).
- The depth of a rule is said to come from its indentation (`scripts/standard-index.py:269-272`). It comes from its label:
  the indentation only decides between the depths where the label could be the next one.

## Model

| member | source | states |
|---|---|---|
| Runs.Run | vsql/std_2_13_1_sql_client_module_definition.c:221-237 | After every statement of any run: every allocated statement handle has exactly one owner, which is a cursor or a prepared statement; the current SQL-connection is live; an active one is the current one; names are distinct and not empty and only one SQL-connection is the default; the recorded module is the last one whose schema was set; a cursor has no statement or one whose query was executed; each statement had its effect (Runs.Step), and the CLI was asked to do exactly that, in that order. After the exit nothing is allocated, and each handle was freed exactly as often as it was allocated |
| Runs.Step | vsql/std_2_13_1_sql_client_module_definition.c:269-284 | A procedure of any module keeps all of these rules and has the effect of its statement on the state in which the schema of the module is set, or can't have that schema and isn't executed: 24000 exactly for a FETCH or CLOSE of a cursor that isn't open and for an OPEN of one that is, which then changes nothing; no cursor but the one of an OPEN has another statement or is opened. No prepared statement is destroyed or replaced while a dynamic cursor that is declared for it is open; the default SQL-connection is only made implicitly before any connection statement; the status is the first condition; and what the CLI was asked to do: a statement that completes was executed exactly once with its text and parameters on the current SQL-connection, which is active then, a COMMIT or ROLLBACK is the one that was asked for, and the targets are assigned from the row that was fetched |
| Runs.Statement | vsql/std_2_13_1_sql_client_module_definition.c:721-791 | A statement that isn't a connection statement has its effect (see Runs.Step), and doesn't make or close an SQL-connection after a connection statement |
| CursorRuns.StepOpens | vsql/std_2_14_1_declare_cursor.c:97-108 | A cursor that is open after a statement of any module was open before it, or its OPEN is the statement and worked |
| CursorRuns.NotOpenWhenEnded | vsql/std_2_14_1_declare_cursor.c:46-159 | In any run, a cursor isn't open on an SQL-connection where no OPEN of it has worked, or where that was ended since: it was closed, its SQL-connection was closed, or an OPEN of it failed (but not because it was open or its query wasn't prepared, which leave it as it is) |
| CursorRuns.InvalidWhenEnded | vsql/std_2_14_1_declare_cursor.c:46-159 | In any run, a FETCH or CLOSE of such a cursor by its module is 24000, or the schema of the module can't be set and it isn't executed |
| CursorRuns.PreparedApart | vsql/std_2_20_7_prepare_statement.c:523-598 | The statement of a cursor isn't the one of a prepared statement, so EXECUTE can't open a cursor |
| Runs.ConnectionStatement | vsql/std_2_13_1_sql_client_module_definition.c:886-1047 | After a connection statement there is no implicit default SQL-connection any more; the SQL-connections and the current one are those of CONNECT TO, SET CONNECTION or DISCONNECT, or as before after an exception; no SQL-connection that stays has changed, a new one has no cursors and no prepared statements, and no cursor is opened; the CLI is only asked to make and close SQL-connections and to set schemas: the new one is for the server and user that were given, and one that is closed was rolled back; the status is exact: each refusal in its order (0A001, 28000, 2E000, 08002, 08003 or 25001), and a CONNECT TO that isn't refused fails only if something that the CLI was asked failed |
| Runs.RulesHold | vsql/std_2_13_1_sql_client_module_definition.c:619-635 | The invariant of the agent gives the rules in terms of the lists and handles only |
| Runs.ExecuteOnce | vsql/std_2_20_7_prepare_statement.c:569-598 | An EXECUTE of a query without an output succeeds only if its columns weren't described, and then its cursor is open |
| Runs.ExecuteAgain | vsql/std_2_20_7_prepare_statement.c:569-598 | While the cursor of a prepared statement is open, every EXECUTE of it that isn't refused before is 24000 and changes no statement |
| Runs.ExecuteTwice | vsql/std_2_20_7_prepare_statement.c:94-152 | A run of PREPARE of a query, EXECUTE without an output and EXECUTE with one, each with its effect on the states between them: if the first EXECUTE succeeds, its columns weren't described and the second one is 24000 |
| Runs.ExecuteTwiceHappens | vsql/std_2_20_7_prepare_statement.c:569-598 | There are states where the first EXECUTE works and leaves the cursor open, and the second one is 24000, and the CLI was asked to execute the text twice |
| SqlCli.Cli.AllocStatement | libvsql/libvsql.h:593-614 | A statement handle that isn't in use, which may be one that was freed, or an error; each time that a handle was allocated it was freed once or it is in use |
| SqlCli.Cli.FreeStatement | libvsql/libvsql.h:1025-1038 | A handle in use is freed, which is recorded; a handle that was freed is not in use |
| SqlCli.Cli.NewHandle | libvsql/std_3_4_4_1_handles.v:174-185 | A number that isn't in use, which may be one that was freed |
| SqlCli.Cli.Prepare | libvsql/std_3_6_50_prepare_test.c:69-76 | An error leaves the statement as it was; it is an invalid cursor state exactly when the cursor is open; otherwise the text that was given is the one that is prepared |
| SqlCli.Cli.Execute | libvsql/std_3_6_20_execute_test.c:5-25 | Out of sequence before it is prepared, an invalid cursor state while the cursor is open, and the cursor is open after a query; the text that was prepared is what is recorded as executed |
| SqlCli.Cli.Fetch | libvsql/std_3_6_21_fetch_test.c:5-23 | A fetch is out of sequence before anything was executed, and an invalid cursor state if no cursor is open |
| SqlCli.Cli.CloseCursor | libvsql/std_3_6_8_close_cursor_test.c:5-34 | An open cursor is closed; otherwise it is out of sequence before anything was executed, and an invalid cursor state after |
| SqlCli.Cli.SetHoldable | libvsql/std_3_6_59_set_stmt_attr_test.c:80-95 | Statement attributes can't be set while a cursor is open |
| SqlCli.Cli.SetHoldableAgain | libvsql/std_3_6_59_set_stmt_attr_test.c:80-95 | Setting the same value again fails exactly when a cursor is open |
| SqlCli.ClassesAre | vsql/std_2_13_1_sql_client_module_definition.c:772-791 | A status is a completion or a transaction rollback exactly by the first two of its characters |
| Diagnostics.Area.Begin | vsql/std_2_13_1_sql_client_module_definition.c:255-284 | A statement starts without conditions or transaction indicators |
| Diagnostics.Area.Raise | vsql/std_2_13_1_sql_client_module_definition.c:293-320 | The condition is added after the others |
| Diagnostics.Area.Status | vsql/std_2_13_1_sql_client_module_definition.c:382-388 | The status is 00000 without conditions, and otherwise the only condition |
| Diagnostics.Area.Diagnose | vsql/std_2_13_1_sql_client_module_definition.c:409-461 | The records of the handle are copied in order up to the first one that can't be read, and the status is the first condition, or 00000 exactly when there are none |
| Diagnostics.Readable | vsql/std_2_13_1_sql_client_module_definition.c:409-461 | The longest prefix of the records that can be read |
| Ownership.FindRefinesMap | vsql/std_2_20_7_prepare_statement.c:8-18 | Finding in the list is the same as looking up the module and name in a map |
| Ownership.RemoveRefinesMap | vsql/std_2_20_7_prepare_statement.c:30-55 | Unlinking a prepared statement removes its module and name, and nothing else, from the map |
| Ownership.RemoveOnly | vsql/std_2_20_7_prepare_statement.c:30-55 | No other prepared statement and no cursor of any SQL-connection changes |
| Ownership.OwnedAfterFill | vsql/std_2_14_1_declare_cursor.c:46-87 | A statement of the running call becomes the statement of a cursor and of nothing else |
| Ownership.OwnedAfterEmpty | vsql/std_2_14_1_declare_cursor.c:97-108 | Freeing the statement of a cursor leaves every other handle with its owner |
| Ownership.OwnedAfterPrepare | vsql/std_2_20_7_prepare_statement.c:94-152 | A statement of the running call becomes a prepared statement and nothing else |
| Ownership.OwnedAfterRemove | vsql/std_2_20_7_prepare_statement.c:30-55 | Freeing a prepared statement leaves every other handle with its owner |
| Ownership.OwnedAfterUse | vsql/std_2_13_1_sql_client_module_definition.c:679-713 | What the CLI does to other statements (it closes cursors at the end of a transaction) keeps what every owner relies on |
| Ownership.AddedKept | vsql/std_2_20_7_prepare_statement.c:94-152 | PREPARE changes no other name, and a prepared statement is only gone or replaced if no cursor for it is open |
| Ownership.ActiveDropped | vsql/std_2_20_7_prepare_statement.c:156-175 | The same for DEALLOCATE PREPARE |
| States.SlotAt | vsql/std_2_14_1_declare_cursor.c:46-87 | A cursor that isn't empty has a live statement of its SQL-connection whose query was executed |
| States.RemoveKeeps | vsql/std_2_20_7_prepare_statement.c:30-55 | Removing a prepared statement keeps the SQL-connections and every other name |
| Runtime.Agent.Status | vsql/std_2_13_1_sql_client_module_definition.c:382-388 | The status and the conditions agree |
| Runtime.Agent.Diag | vsql/std_2_13_1_sql_client_module_definition.c:409-461 | The status is 00000 exactly on success, and an invalid cursor state or sequence error exactly when the CLI reports it first, and a completion exactly if the CLI didn't fail |
| Runtime.Agent.SetSchema | vsql/std_2_13_1_sql_client_module_definition.c:530-556 | The default schema changes only on success, and the statement for it is freed on every path; the schema of the module is set once, and a COMMIT follows exactly if no SQL-transaction is active |
| Runtime.Agent.Schema | vsql/std_2_13_1_sql_client_module_definition.c:530-556 | The module is recorded exactly when its schema was set, and nothing is done if it already is the module |
| Runtime.Agent.Close | vsql/std_2_13_1_sql_client_module_definition.c:463-504 | The SQL-connection is removed from the list after all it owns was freed; the SQL-transaction of the SQL-connection is rolled back first |
| Runtime.Agent.FreeOwned | vsql/std_2_13_1_sql_client_module_definition.c:463-504 | All cursors and prepared statements of the SQL-connection are freed, and nothing of another one changes |
| Runtime.Agent.FreeSlots | vsql/std_2_13_1_sql_client_module_definition.c:463-504 | The cursors of one module are freed, and nothing of another module or SQL-connection changes |
| Runtime.Agent.OpenConnection | vsql/std_2_13_1_sql_client_module_definition.c:562-609 | A new SQL-connection with the schema of the module, or an exception and no change; the CLI was asked to connect to the server as the user, and to set that schema |
| Runtime.Agent.Connect | vsql/std_2_13_1_sql_client_module_definition.c:562-609 | A failed connection leaves no handle; the server and user are those that were given |
| Runtime.Agent.Use | vsql/std_2_13_1_sql_client_module_definition.c:619-635 | The current SQL-connection with the schema of the module; the default one is made only if there is none and no connection statement was executed; otherwise 08003. No SQL-connection changes but its schema; cursors can only be closed, also when the schema can't be set; the CLI is asked for nothing if the schema is already that of the module; it fails only with 08003, or if something that the CLI was asked failed |
| Runtime.Agent.BindParams | vsql/std_2_13_1_sql_client_module_definition.c:657-670 | Binding never is an invalid cursor state; the parameters 1 to n are bound in order, up to the first one that can't be |
| Runtime.Agent.ExecStatement | vsql/std_2_13_1_sql_client_module_definition.c:679-713 | On an open cursor nothing changes; otherwise a query that is executed has an open cursor, and the SQL-connection may have become active; the text that was prepared is executed once with its parameters, or there is an error |
| Runtime.Agent.Exec | vsql/std_2_13_1_sql_client_module_definition.c:679-713 | The same with the status: 24000 exactly for an open cursor (for a query), and then nothing changed; it worked exactly if the status is a completion; a completion means that the text was executed exactly once with all of its parameters bound |
| Runtime.Agent.RunOn | vsql/std_2_13_1_sql_client_module_definition.c:721-742 | A completion means that exactly this text was prepared, given its parameters and executed once on the SQL-connection, which is active then, and any other status is an exception; the handle is freed on every path; it fails only if the statement couldn't be allocated, the text couldn't be prepared, a parameter couldn't be bound or the execution failed, which are what the CLI was asked then |
| Runtime.Agent.Execute | vsql/std_2_13_1_sql_client_module_definition.c:745-752 | Nothing of the agent changes but an SQL-transaction that begins, and no cursor is opened; if the schema of its module can't be set, it isn't executed, no SQL-connection or cursor changes but a cursor that is closed, and the status is another exception; a completion means that the text was executed exactly once with its parameters |
| Runtime.Agent.Start | vsql/std_2_13_1_sql_client_module_definition.c:755-769 | The SQL-transaction is active exactly if the status is a completion, and nothing else changes; if the schema of its module can't be set, it isn't executed, no SQL-connection or cursor changes but a cursor that is closed, and the status is another exception; one SQL-transaction is started |
| Runtime.Agent.StartOn | vsql/std_2_13_1_sql_client_module_definition.c:755-769 | The SQL-transaction begins exactly if the status is a completion, and the CLI is asked to start exactly one |
| Runtime.Agent.End | vsql/std_2_13_1_sql_client_module_definition.c:772-791 | The SQL-transaction isn't active afterwards, even if a COMMIT failed, and no cursor is opened; if the schema of its module can't be set, it isn't executed, no SQL-connection or cursor changes but a cursor that is closed, and the status is another exception; the CLI is asked to end it exactly once, by the COMMIT or ROLLBACK that was given |
| Runtime.Agent.EndOn | vsql/std_2_13_1_sql_client_module_definition.c:772-791 | The indicators of the diagnostics area: committed after a COMMIT that succeeds, rolled back after a ROLLBACK or after a COMMIT that fails exactly if its status is a transaction rollback, and unchanged if nothing was active; the CLI is asked to end the SQL-transaction exactly once, by the COMMIT or ROLLBACK that was given, and the status says if that worked |
| Runtime.Agent.ReadName | vsql/std_2_13_1_sql_client_module_definition.c:818-852 | The identifier that the text is, or an empty string |
| Runtime.Agent.Find | vsql/std_2_13_1_sql_client_module_definition.c:854-876 | The SQL-connection with the name (or the default one) is found exactly if there is one |
| Runtime.Agent.Switch | vsql/std_2_13_1_sql_client_module_definition.c:886-894 | A connection statement is refused with 0A001 exactly while an SQL-transaction is active |
| Runtime.Agent.ConnectTo | vsql/std_2_13_1_sql_client_module_definition.c:903-960 | Exactly one SQL-connection with a name nobody had is added and is the current one, or nothing changes; the CLI was asked to connect to that server as that user; each refusal has its status, in the order of the code, and asks the CLI for nothing; otherwise it fails only if something that the CLI was asked failed |
| Runtime.Agent.ConnectAs | vsql/std_2_13_1_sql_client_module_definition.c:903-960 | A name in use is 08002, and a failure leaves the list and the current SQL-connection |
| Runtime.Agent.SetConnection | vsql/std_2_13_1_sql_client_module_definition.c:969-995 | It succeeds exactly if nothing is active and there is such an SQL-connection, which is then the current one; otherwise the status is exactly 0A001, 2E000 or 08003, in that order |
| Runtime.Agent.Disconnect | vsql/std_2_13_1_sql_client_module_definition.c:1003-1047 | ALL closes everything; otherwise exactly the SQL-connection that is named, is the default one or is current, which wasn't active, and if it was the current one there is none; a failure closes nothing; the SQL-transaction of every SQL-connection that is closed is rolled back; the status is exactly 2E000, 08003 or 25001, in that order, or 00000 |
| Runtime.Agent.DisconnectOne | vsql/std_2_13_1_sql_client_module_definition.c:1003-1047 | An active SQL-connection isn't closed |
| Runtime.Agent.DisconnectAll | vsql/std_2_13_1_sql_client_module_definition.c:1003-1047 | All or none are closed |
| Runtime.Agent.Exit | vsql/std_2_13_1_sql_client_module_definition.c:513-521 | No SQL-connection and no handle is left; each SQL-connection is rolled back |
| Runtime.Agent.Cursors | vsql/std_2_14_1_declare_cursor.c:9-36 | A module gets its slots the first time, all empty |
| Runtime.Agent.CursorOn | vsql/std_2_14_1_declare_cursor.c:46-87 | The statement of a cursor is the one it had, or a new one only for OPEN; for FETCH and CLOSE of a cursor without one it is 24000 |
| Runtime.Agent.NewCursor | vsql/std_2_14_1_declare_cursor.c:46-87 | If the name or holdability can't be set, the handle is freed and the slot stays empty; it has the name and holdability of the cursor |
| Runtime.Agent.EmptySlot | vsql/std_2_14_1_declare_cursor.c:97-108 | A cursor that couldn't be opened has no statement |
| Runtime.Agent.OpenCursor | vsql/std_2_14_1_declare_cursor.c:97-108 | 24000 exactly if the cursor is open, and then nothing changes; otherwise the cursor is open exactly if the status is a completion, and has no statement after an exception; no other cursor has another statement or is opened; if the schema of its module can't be set, it isn't executed, no SQL-connection or cursor changes but a cursor that is closed, and the status is another exception; a completion means that the query was executed exactly once with its parameters on the statement of the cursor, which has its name and holdability |
| Runtime.Agent.OpenCursorOn | vsql/std_2_14_1_declare_cursor.c:97-108 | A cursor that couldn't be opened has no statement, so a FETCH is 24000 and not a sequence error; a completion means that the query was executed exactly once with its parameters |
| Runtime.Agent.Fetch | vsql/std_2_14_1_declare_cursor.c:116-149 | 24000 exactly if the cursor isn't open, and never a sequence error; every cursor has the statement that it had, and no other statement of the CLI changes; if the schema of its module can't be set, it isn't executed, no SQL-connection or cursor changes but a cursor that is closed, and the status is another exception; one row is fetched from that cursor, and after a completion its columns 1 to n were assigned in order |
| Runtime.Agent.FetchRow | vsql/std_2_14_1_declare_cursor.c:116-149 | An open cursor is never out of sequence or invalid, any other one is 24000, and a different number of columns is only found after a fetch that succeeded; one row is fetched, and nothing is assigned without it; a completion is 01004 exactly if a column was cut |
| Runtime.Agent.AssignRow | vsql/std_2_14_7_select_statement_single_row.c:177-191 | A fetch that failed is passed on without an assignment, and an assignment that fails is not a sequence error; the columns 1 to n are assigned in order, up to the first one that can't be; it's truncated exactly if one of them was cut |
| Runtime.Agent.CloseCursor | vsql/std_2_14_1_declare_cursor.c:153-159 | 00000 exactly if the cursor is open and 24000 otherwise, and it isn't open afterwards; every cursor has the statement that it had, and no other statement of the CLI changes; if the schema of its module can't be set, it isn't executed, no SQL-connection or cursor changes but a cursor that is closed, and the status is another exception |
| Runtime.Agent.Select | vsql/std_2_14_7_select_statement_single_row.c:198-263 | Nothing of the agent changes but an SQL-transaction that begins, no cursor is opened, and the targets are assigned if the status is 00000; if the schema of its module can't be set, it isn't executed, no SQL-connection or cursor changes but a cursor that is closed, and the status is another exception; 00000 means that the text was executed exactly once, one row was fetched and assigned, and a second one was asked for |
| Runtime.Agent.SelectRow | vsql/std_2_14_7_select_statement_single_row.c:198-263 | A different number of columns is 07002, and nothing is assigned; otherwise the row is fetched and its columns are assigned before a second one is asked for |
| Runtime.Agent.Second | vsql/std_2_14_7_select_statement_single_row.c:198-263 | A second row is a cardinality violation, and no second row leaves the status; one more row is asked for |
| Runtime.Agent.FindPrepared | vsql/std_2_20_7_prepare_statement.c:8-18 | The place of the prepared statement in the list |
| Runtime.Agent.FindOpen | vsql/std_2_20_7_prepare_statement.c:30-55 | Setting the holdability again finds out exactly whether a cursor that is declared for the name is open |
| Runtime.Agent.Deallocate | vsql/std_2_20_7_prepare_statement.c:30-55 | It is refused with 24000 exactly if a cursor that is declared for the name is open, and then no SQL-connection, cursor or statement changes; otherwise exactly that prepared statement is gone, and every cursor has the statement that it had |
| Runtime.Agent.FindNamed | vsql/std_2_20_7_prepare_statement.c:67-82 | The prepared statement of the module and name, or 26000 |
| Runtime.Agent.Prepare | vsql/std_2_20_7_prepare_statement.c:94-152 | It is refused with 24000 exactly if a cursor for the name is open, and then nothing changes; the name has the new text exactly on success; no other name changes, every cursor has the statement that it had, and none is opened; if the schema of its module can't be set, it isn't executed, no SQL-connection or cursor changes but a cursor that is closed, and the status is another exception; the statement of the name has exactly the text that was given; otherwise it fails only if a statement couldn't be allocated or the text couldn't be prepared |
| Runtime.Agent.NewPrepared | vsql/std_2_20_7_prepare_statement.c:94-152 | A statement that can't be prepared is freed |
| Runtime.Agent.AddPrepared | vsql/std_2_20_7_prepare_statement.c:94-152 | A new prepared statement is added and nothing else changes, or an exception |
| Runtime.Agent.DeallocatePrepare | vsql/std_2_20_7_prepare_statement.c:156-175 | 24000 exactly if a cursor for the name is open, 26000 exactly if there is no such name, and then only the SQL-transaction begins; otherwise exactly that name is gone; every cursor has the statement that it had, and none is opened; if the schema of its module can't be set, it isn't executed, no SQL-connection or cursor changes but a cursor that is closed, and the status is another exception |
| Runtime.Agent.Bind | vsql/std_2_20_7_prepare_statement.c:323-367 | The exception of an input that doesn't match the placeholders of the text; otherwise the parameters are bound in order |
| Runtime.Agent.Into | vsql/std_2_20_7_prepare_statement.c:467-510 | The exception of an output that doesn't match the columns; nothing is assigned after a failed fetch; otherwise the columns are assigned in order, from the row that was fetched |
| Runtime.Agent.ExecuteBound | vsql/std_2_20_7_prepare_statement.c:569-598 | The cursor of a query that wasn't open is open afterwards exactly if the query succeeded and its columns weren't described; an open one refuses it with 24000 and no change; the text that was prepared is executed exactly once, and its only row is assigned if its columns were described |
| Runtime.Agent.ExecutePrepared | vsql/std_2_20_7_prepare_statement.c:523-598 | The exceptions before anything is executed, in their order; what was executed as in Runtime.Agent.ExecuteBound; nothing of the agent changes but an SQL-transaction that begins; if the schema of its module can't be set, it isn't executed, no SQL-connection or cursor changes but a cursor that is closed, and the status is another exception; what the CLI is asked to do: nothing if it is refused, otherwise the parameters are bound and the text that was prepared is executed exactly once |
| Runtime.Agent.CheckOutput | vsql/std_2_20_7_prepare_statement.c:523-598 | A statement is refused before it is executed exactly if it has columns and cannot be a single row select or has no output, or has no columns and an output that does not match |
| Runtime.Agent.ExecuteImmediate | vsql/std_2_20_7_prepare_statement.c:609-659 | A placeholder is 42000 before anything happens; nothing of the agent changes but an SQL-transaction that begins, and no cursor is opened; if the schema of its module can't be set, it isn't executed, no SQL-connection or cursor changes but a cursor that is closed, and the status is another exception; a completion means that the text was executed exactly once; only a query can be refused with 42000 without being executed |
| Runtime.Agent.OpenDynamic | vsql/std_2_20_7_prepare_statement.c:672-716 | The exceptions of the prepared statement before the cursor is used, with no change; 24000 exactly if the cursor is open, with no change; otherwise it is open exactly if the status is a completion, and has no statement after an exception; no other cursor has another statement or is opened; if the schema of its module can't be set, it isn't executed, no SQL-connection or cursor changes but a cursor that is closed, and the status is another exception; a completion means that the text that was prepared was executed exactly once with its parameters, under the name and holdability of the cursor |
| Runtime.Agent.FetchDynamic | vsql/std_2_20_7_prepare_statement.c:725-730 | 24000 exactly if the cursor isn't open, and never a sequence error; every cursor has the statement that it had, and no other statement of the CLI changes; if the schema of its module can't be set, it isn't executed, no SQL-connection or cursor changes but a cursor that is closed, and the status is another exception; one row is fetched from that cursor, and after a completion all of its columns were assigned |
| Runtime.Agent.UseArea | vsql/std_2_20_1_description_of_sql_descriptor_areas.c:103-131 | A statement of a descriptor area makes the SQL-connection active and changes nothing else; if the schema of its module can't be set, it isn't executed, no SQL-connection or cursor changes but a cursor that is closed, and the status is another exception |
| Runtime.Agent.Describe | vsql/std_2_20_7_prepare_statement.c:238-269 | DESCRIBE of a name that isn't prepared is 26000 with no change; otherwise the SQL-connection is active and nothing else changes; if the schema of its module can't be set, it isn't executed, no SQL-connection or cursor changes but a cursor that is closed, and the status is another exception |
| Utf8.PieceSize | vsql/std_2_14_7_select_statement_single_row.c:39-66 | A piece of valid UTF-8 has at most 4 octets for each character that starts in it, and no more characters than the value |
| Utf8.PieceBoundary | vsql/std_2_14_7_select_statement_single_row.c:17-37 | A piece that ends where a character starts is exactly the first characters |
| Utf8.MaskIsFirst | vsql/std_2_14_7_select_statement_single_row.c:17-37 | The bit test of the runtime finds exactly the octets that start a character |
| Utf8.StartsAdd | vsql/std_2_14_7_select_statement_single_row.c:56-66 | Counting over pieces adds up, even if a piece splits a character |
| Utf8.OctetsAre | vsql/std_2_14_7_select_statement_single_row.c:17-37 | The octets of a character are those that decode to it, and as few as possible |
| Retrieval.PutString | vsql/std_2_14_7_select_statement_single_row.c:17-37 | In place or not, the target has the first characters, or all of them and spaces, stays within (length + 1) * 4 octets, and it's truncated exactly if there are more characters |
| Retrieval.PutFits | vsql/std_2_14_7_select_statement_single_row.c:17-37 | What is put for any piece of a value fits, and for the whole value it is exactly its first characters padded to the length |
| Retrieval.PutCut | vsql/std_2_14_7_select_statement_single_row.c:17-37 | Copying up to the octet where the next character starts never leaves part of a character |
| Retrieval.Characters | vsql/std_2_14_7_select_statement_single_row.c:56-66 | The number of characters that start in a piece |
| Retrieval.Row.GetString | libvsql/libvsql.h:1102-1119 | The next piece of a value, its remaining length, and the start again after the last piece |
| Retrieval.Row.GetInteger | libvsql/libvsql.h:1102-1119 | The value if it is in the range of the target, and otherwise an error |
| Retrieval.CountPiece | vsql/std_2_14_7_select_statement_single_row.c:134-165 | The characters that start in the next piece, which makes progress |
| Retrieval.CountRest | vsql/std_2_14_7_select_statement_single_row.c:134-165 | Counting the other pieces ends with the number of characters of the whole value |
| Retrieval.AssignText | vsql/std_2_14_7_select_statement_single_row.c:84-166 | A string target has exactly the first characters padded with spaces: a value that isn't longer is 00000 with indicator 0, a longer one is a warning with the number of characters of the whole value as its indicator, or an error if that is more than the indicator can be; null is -1, or an error without an indicator |
| Retrieval.CutText | vsql/std_2_14_7_select_statement_single_row.c:134-165 | From the first piece on, whatever the rest is: a longer value is cut to the length of the target, and the indicator is its number of characters or too small for it |
| Retrieval.AssignInteger | vsql/std_2_14_7_select_statement_single_row.c:84-133 | An integer target changes only if the value fits in it |
| Retrieval.IsTrue | vsql/std_2_14_7_select_statement_single_row.c:84-133 | A piece is the octets of TRUE exactly if the value is TRUE |
| Retrieval.AssignBoolean | vsql/std_2_14_7_select_statement_single_row.c:84-133 | A BOOLEAN target is 1 exactly if the value is TRUE, and 0 for another one |
| Retrieval.Assign | vsql/std_2_14_7_select_statement_single_row.c:84-166 | The target, indicator and return code for every value and target, wherever the pieces split its characters: null, a value that fits, one that is cut (the indicator is its whole length), an indicator that is too small, a number out of range and a BOOLEAN |
| Descriptors.MatchesLayout | vsql/std_2_20_1_description_of_sql_descriptor_areas.c:145-162 | A host parameter that matches an item reads and writes DATA in the layout of the type of the item |
| Descriptors.DescribedIsBoundIff | vsql/std_2_20_7_prepare_statement.c:186-229 | An item that was described and then given DATA is bound with the length, precision and scale of its column, and as the type of its column exactly if a datetime has the code of its concise type |
| Descriptors.PaddedFits | vsql/std_2_20_7_prepare_statement.c:425-432 | A CHARACTER is padded within LENGTH * 4 octets for every piece, stays UTF-8, and a value that fits has exactly LENGTH characters |
| Descriptors.GotCharacter | vsql/std_2_20_7_prepare_statement.c:394-456 | A value that isn't longer is padded to LENGTH characters, and the returned lengths of a CHARACTER VARYING column are those of the whole value |
| Descriptors.SetThenGet | vsql/std_2_20_1_description_of_sql_descriptor_areas.c:418-446 | DATA that was set is what is retrieved (any BOOLEAN but 0 is 1) |
| Descriptors.OfType | vsql/std_2_20_1_description_of_sql_descriptor_areas.c:527-556 | The length, precision, scale and character set that an item gets with a TYPE, whatever it had |
| Descriptors.Measure | vsql/std_2_20_7_prepare_statement.c:394-424 | The counting loop ends with the lengths of the whole value, and the next read starts at its first octet |
| Descriptors.ReadText | vsql/std_2_20_7_prepare_statement.c:394-456 | The DATA of a string item, within the size of the item |
| Descriptors.ReadData | vsql/std_2_20_7_prepare_statement.c:394-456 | DATA is laid out as the type of the item |
| Descriptors.PadMemory | vsql/std_2_20_7_prepare_statement.c:425-432 | Spaces are added in place up to the number of characters, with the null character after them |
| Descriptors.Descriptor.GetItem | vsql/std_2_20_1_description_of_sql_descriptor_areas.c:366-407 | Each status exactly: the item isn't within the maximum, isn't within COUNT, doesn't match, or needs an indicator |
| Descriptors.Descriptor.GetData | vsql/std_2_20_1_description_of_sql_descriptor_areas.c:418-446 | DATA that's defined and not null is read as it was written |
| Descriptors.Descriptor.GetText | vsql/std_2_20_1_description_of_sql_descriptor_areas.c:418-446 | A string target has the first characters of DATA padded with spaces, and is truncated exactly if there are more |
| Descriptors.Descriptor.SetCount | vsql/std_2_20_1_description_of_sql_descriptor_areas.c:452-465 | COUNT is any INTEGER, and more than the maximum too |
| Descriptors.Descriptor.SetItem | vsql/std_2_20_1_description_of_sql_descriptor_areas.c:475-491 | Exactly the items within the maximum can be set |
| Descriptors.Descriptor.SetNumber | vsql/std_2_20_1_description_of_sql_descriptor_areas.c:501-558 | Each status exactly; the component of the item at that place has the number after a success and no other item changes; DATA is undefined afterwards even if the number isn't set; LEVEL stays 0 |
| Descriptors.Descriptor.SetString | vsql/std_2_20_1_description_of_sql_descriptor_areas.c:565-572 | Only the component changes, and DATA is undefined |
| Descriptors.Descriptor.SetData | vsql/std_2_20_1_description_of_sql_descriptor_areas.c:583-636 | Each status exactly, and DATA has the value in the layout of its type |
| Descriptors.Descriptor.CheckItems | vsql/std_2_20_1_description_of_sql_descriptor_areas.c:216-239 | COUNT has to be within the maximum before any item is looked at, as many as expected, and each of them complete |
| Descriptors.Descriptor.DescribeColumn | vsql/std_2_20_7_prepare_statement.c:186-229 | Only the item of the column changes |
| Descriptors.Descriptor.Describe | vsql/std_2_20_7_prepare_statement.c:238-269 | COUNT is the number of columns even if that is more than the maximum, and then no item changes |
| Descriptors.Descriptor.BindItems | vsql/std_2_20_7_prepare_statement.c:290-367 | Each status exactly, and every value that's bound is null or DATA in the layout of its type |
| Descriptors.Descriptor.GetColumn | vsql/std_2_20_7_prepare_statement.c:394-456 | The item of a column, or no change if it fails |
| Descriptors.Descriptor.Into | vsql/std_2_20_7_prepare_statement.c:467-510 | Each status exactly; after a success every item has its column and no other item changes |
| DescriptorAreas.Areas.Find | vsql/std_2_20_1_description_of_sql_descriptor_areas.c:90-131 | The area with the name, which isn't found exactly if there is none |
| DescriptorAreas.Areas.Allocate | vsql/std_2_20_1_description_of_sql_descriptor_areas.c:290-331 | Each status exactly; a new area has a new name, the maximum that was given and empty items, and the others stay |
| DescriptorAreas.Areas.Deallocate | vsql/std_2_20_1_description_of_sql_descriptor_areas.c:335-354 | Exactly the area with the name is gone, and 33000 without a change if there is none |
| DescriptorAreas.RemoveArea | vsql/std_2_20_1_description_of_sql_descriptor_areas.c:335-354 | The names stay distinct, and only the area with the name is removed |
| DescriptorAreas.Areas.Change | vsql/std_2_20_1_description_of_sql_descriptor_areas.c:452-636 | What the area that is named becomes: SET DESCRIPTOR VALUE n changes item n of 1 to the maximum and no other one, which has the number, text or DATA that was given after a success; SET COUNT and DESCRIBE set COUNT; a failed item changes nothing; no other area changes |
| DescriptorAreas.Areas.Perform | vsql/std_2_20_1_description_of_sql_descriptor_areas.c:90-131 | A statement does that to the area with its name, and is 33000 without a change if there is none |
| DescriptorAreas.Areas.GetValue | vsql/std_2_20_1_description_of_sql_descriptor_areas.c:366-446 | GET DESCRIPTOR reads item n of the area with the name, with each status exactly |
| DescriptorAreas.Areas.SetThenGetValue | vsql/std_2_20_1_description_of_sql_descriptor_areas.c:366-558 | SET DESCRIPTOR VALUE n and then GET DESCRIPTOR VALUE n of the same area gives the number or DATA that was set |
| DescriptorAreas.LastIsSet | vsql/std_2_20_1_description_of_sql_descriptor_areas.c:501-636 | After a successful SET DESCRIPTOR at the end of any run, item n has the number or DATA that was given |
| DescriptorAreas.ItemsReadable | vsql/std_2_20_1_description_of_sql_descriptor_areas.c:145-162 | DATA of a valid area has the layout that every host parameter that matches reads |
| DescriptorAreas.Run | vsql/std_2_20_1_description_of_sql_descriptor_areas.c:290-636 | In any run of statements on any areas, each statement has exactly its effect on the area that is named (see DescriptorAreas.Areas.Change) and its status; DATA that's defined and not null is only read as what it was written as, LEVEL is 0, and every name is of one area |
| Names.ParseNameIff | vsql/std_2_13_1_sql_client_module_definition.c:818-852 | A text is accepted as an identifier exactly if it denotes it (in quotes, or as a regular identifier in any case, with spaces around it) and it has up to 128 octets |
| Names.DelimitedIff | vsql/std_2_13_1_sql_client_module_definition.c:818-852 | Exactly the quoted and doubled form of an identifier is read as it, so every malformed one is rejected |
| Names.UndoubleDouble | app/app_highlight.js:28-34 | Doubling quotes is undone |
| Names.DoubleUndouble | vsql/std_2_13_1_sql_client_module_definition.c:818-852 | What can be undoubled was doubled |
| Names.ToNameRoundTrip | app/app_highlight.js:28-34 | The runtime reads back exactly the upper case form of every name the application prints, with spaces and quotes |
| Names.PrintIs | app/app_highlight.js:28-34 | The text that's printed for an identifier denotes it, and no other one, exactly if it has up to 128 octets (for the runtime) or characters (for the engine) |
| Names.RequoteIs | vsql/std_2_5_4_names_and_identifiers.v:185-268 | The text that the engine prints for an identifier is read by it as that one exactly if it has up to 128 characters and doesn't start with a dollar sign, and otherwise as none |
| Names.EnteredNameIs | app/app_highlight.js:28-34 | The text that's printed for a name that was entered, in quotes or not, denotes the identifier that the name is, or none |
| Names.Name | vsql/std_2_13_1_sql_client_module_definition.c:818-852 | The buffer of 129 octets has the identifier, and is never exceeded |
| Names.Trim | vsql/std_2_13_1_sql_client_module_definition.c:818-824 | The text without the spaces around it |
| Names.SpacesIgnored | vsql/std_2_13_1_sql_client_module_definition.c:818-824 | A name is read the same with any spaces around it |
| Names.Delimited | vsql/std_2_13_1_sql_client_module_definition.c:825-838 | The undoubled body if it's well formed and has up to 128 octets, and otherwise an empty string |
| Names.Regular | vsql/std_2_13_1_sql_client_module_definition.c:839-852 | The upper case form of a regular identifier of up to 128 octets, and otherwise an empty string |
| Scanner.Scan | vsql/std_2_20_1_description_of_sql_descriptor_areas.c:12-81 | The number of placeholders among the tokens of the statement and whether it can be a single row select, without reading past the null character; every text that differs only in the case of its letters has the same result, and SELECT in any of its 64 spellings with any words after it is single exactly if none of the words outside of parentheses combines queries |
| Scanner.AdjacentLiterals | vsql/std_2_20_1_description_of_sql_descriptor_areas.c:24-34 | Reading a doubled quote as the end of a literal and the start of another one gives the same result |
| Scanner.SingleIff | vsql/std_2_20_1_description_of_sql_descriptor_areas.c:47-70 | The flag is set exactly if the first token spells SELECT in any case and no combining word, in any case, is outside of parentheses, on the first 9 letters |
| Scanner.CaseIgnored | vsql/std_2_20_1_description_of_sql_descriptor_areas.c:47-56 | Texts that differ in the case of their letters have the same number of placeholders and the same flag |
| Scanner.QuerySingleIff | vsql/std_2_20_1_description_of_sql_descriptor_areas.c:47-70 | For any spelling of SELECT and any words after it, in parentheses or not, the flag is set exactly if no word outside of parentheses is a combining one |
| Scanner.KeywordIff | vsql/std_2_20_1_description_of_sql_descriptor_areas.c:53-68 | Comparing the first 9 letters in upper case finds exactly the words that spell SELECT or a combining word in any case, and those that only begin with INTERSECT |
| Scanner.RunCounts | vsql/std_2_20_1_description_of_sql_descriptor_areas.c:12-81 | The counters after any tokens are the sums over them |
| Scanner.SkipQuoted | vsql/std_2_20_1_description_of_sql_descriptor_areas.c:24-34 | The end of a literal or delimited identifier |
| Scanner.SkipComment | vsql/std_2_20_1_description_of_sql_descriptor_areas.c:35-46 | The end of a bracketed comment with the ones nested in it |
| Scanner.ScanWord | vsql/std_2_20_1_description_of_sql_descriptor_areas.c:47-58 | The whole word is skipped, and its first 9 letters are kept in upper case |
| Scanner.CountersAgree | app/app.js:12 | The counter of the application gives the same number when bracketed comments are closed and not nested |
| Scanner.CountersDisagree | app/app.js:12 | A nested comment and an unclosed one where the counters differ |
| Scanner.CountersDifferBy | app/app.js:12 | The counter of the application also counts the placeholders between the first end of each bracketed comment and its real end (or in a comment without an end), if no comment or literal starts there |
| Scanner.CountersAgreeIff | app/app.js:12 | So both counters agree exactly if there is no placeholder in that part of any comment |
| Glob.ShouldFilterTest | libvsql/utest.h:1609-1649 | A test is filtered exactly if its name doesn't match the pattern; it ends, and reads nothing past a null character |
| Glob.LastWildcard | libvsql/utest.h:1622-1625 | When another wildcard is found, the one before it never has to be retried |
| Glob.StarEarlier | libvsql/utest.h:1626-1630 | A wildcard can stand for everything before a place where it matches |
| Glob.LiteralPrefix | libvsql/utest.h:1618-1621 | Characters that aren't a wildcard match only themselves |
| Glob.Retry | libvsql/utest.h:1626-1634 | After a mismatch the name can match exactly if the last wildcard can stand for one more character |
| Glob.NoRetryAtEnd | libvsql/utest.h:1637-1645 | At the end of the name, the last wildcard can't stand for more |
| Glob.OnlyStars | libvsql/utest.h:1637-1640 | Only wildcards match an empty rest |
| Csv.SampleRecords | app/app_import.js:48-90 | The sample is exactly the first 101 records of what the whole file has |
| Csv.ParseExtends | app/app_import.js:66-88 | A record that was read isn't changed by what follows |
| Csv.ParseNotEmpty | app/app_import.js:59-65 | No record is empty or a single null value |
| Csv.PrintParse | app/app_import.js:48-90 | A file that is written for any records, with or without quotes where they aren't needed, any line endings and any end of the file, is read back as them |
| Csv.CanParseIff | app/app_import.js:48-90 | Some file has the records exactly if none of them is empty or a single null value |
| Csv.ParseQuoted | app/app_import.js:68-76 | A value in quotes is read back with the quotes in it |
| Csv.ParseBare | app/app_import.js:77-86 | A value without quotes is read back |
| GuessType.FitsIff | app/app_import.js:106-109 | Comparing the digits as strings is comparing the numbers |
| GuessType.GuessIntegerIff | app/app_import.js:118-122 | INTEGER (and otherwise BIGINT) is guessed exactly if every value is an integer between -limit and limit, so not for the least value of the type |
| GuessType.GuessDecimalHoldsAll | app/app_import.js:123-128 | Every value of the sample is a value of the DECIMAL that's guessed, without being rounded |
| GuessType.ScaleIsLeastIff | app/app_import.js:123-128 | No smaller scale holds every value exactly if the scale is 0 or some value has its longest fraction without a zero at the end |
| GuessType.WholeIsLeastIff | app/app_import.js:123-128 | No type with fewer digits before the decimal point holds every value exactly if the whole part of some value isn't 0 |
| GuessType.FitsInteger | app/app_import.js:106-122 | The constants are the greatest values of INTEGER and BIGINT |
| GuessType.NotAfterIff | app/app_import.js:106-109 | The order of digit strings of the same length is the order of their numbers |
| GuessType.SignedIs | app/app_import.js:103-104 | A sign, digits without a leading zero and a fraction are read as these parts and as that number, and as an integer exactly if there is no fraction |
| GuessType.IsSigned | app/app_import.js:103-104 | Every text that's an integer or a decimal is such a text |
| AlterTable.ToSql | app/app_alter_table.js:28-47 | The texts of the changes, in their order |
| AlterTable.KeyNames | app/app_alter_table.js:29-30 | The texts of the names of the PRIMARY KEY in the order of the columns |
| AlterTable.DropNotNullChanges | app/app_alter_table.js:34-36 | A change for each NOT NULL that was removed |
| AlterTable.SetDefaultChanges | app/app_alter_table.js:38-41 | A change for each default that was changed, with the text of the name of its column |
| AlterTable.AddColumnChanges | app/app_alter_table.js:42-44 | A change for each new column, with the text of the name that was entered |
| AlterTable.DropColumnChanges | app/app_alter_table.js:37 | A change for each column that was removed, with the text of its name |
| AlterTable.ScriptTextMeans | app/app_alter_table.js:28-47 | If no name in the script starts with a dollar sign, each of its texts denotes the identifier it's for, so the script means the changes of the identifiers |
| AlterTable.JoinSame | app/app_alter_table.js:30-31 | Two lists of identifiers that look the same when joined by commas are the same, commas in quotes included |
| EditTable.ScriptRuns | app/app_alter_table.js:28-47 | What the script means is valid at every step exactly if the edits can be made, and then it makes exactly the expected table |
| EditTable.KeyIsNotAdded | app/app_alter_table.js:30-33 | The script fails to make the table if a column of the PRIMARY KEY is removed and the names of the PRIMARY KEY stay the same |
| EditTable.MadeIsEdited | app/app_alter_table.js:28-47 | The table that is made has exactly the edited columns, defaults, NOT NULLs and PRIMARY KEY |
| EditTable.ScriptDoes | app/app_alter_table.js:28-47 | Executing such a script, with the identifiers that the parser reads in its texts, does what the changes mean |
| EditTable.ScriptUnreadable | vsql/std_2_5_4_names_and_identifiers.v:261-268 | A script with a name of a column or constraint that starts with a dollar sign is never valid, because the engine prints it without quotes |
| EditTable.KeySame | app/app_alter_table.js:30-31 | A PRIMARY KEY with the same joined texts has the same columns, if no name of a column starts with a dollar sign |
| EditTable.ScriptWorksIff | app/app_alter_table.js:28-47 | The text of the script is valid at every step and makes the edited table exactly if no NOT NULL is removed from an identity column or from a column of an unchanged PRIMARY KEY, some column stays, no column of an unchanged PRIMARY KEY is removed, every new column has a name that denotes an identifier of up to 128 characters that no other column has, however it's spelled, no printed name starts with a dollar sign, and another PRIMARY KEY isn't printed the same |
| TableEditor.StepKeeps | app/app_alter_table.js:15-24 | Every edit of a field that isn't locked, and adding or removing a column, keeps the states that the theorem is about |
| TableEditor.RemoveKeeps | app/app_alter_table.js:55-58 | A column that's removed is kept for its DROP COLUMN |
| TableEditor.SetIsShown | app/app_columns.js:52-88 | A field that isn't locked has what was set, a locked one what it had, and nothing else changes; a new identity column is the only one |
| TableEditor.AfterEdits | app/app_alter_table.js:49-59 | So does any sequence of edits |
| TableEditor.EditedScriptWorksIff | app/app_alter_table.js:26-47 | For every table, any reserved words and any sequence of edits with any entered names, the script works exactly if the edits can be made |
| TableEditor.ScriptEmptyIff | app/app_alter_table.js:46-52 | The script is empty (and no other PRIMARY KEY is printed the same) exactly if nothing has changed, for a PRIMARY KEY in the order of the columns |
| TableEditor.NotNullOfKeyFails | app/app_alter_table.js:14-24 | A table and an edit that isn't locked whose script doesn't work |
| TableEditor.SameIdentifierFails | app/app_highlight.js:28-34 | A table with a column ID and a new column entered as "ID" in quotes, whose script doesn't work |
| TableEditor.DollarFails | vsql/std_2_5_4_names_and_identifiers.v:261-268 | A table with a column named $A that can be removed in the editor, whose script doesn't work |
| RequestLoop.Tab.Change | app/app_import.js:270-283 | The state after the form was changed |
| RequestLoop.Tab.Update | app/app_export.js:67-70 | A call sends a request only if none is in flight |
| RequestLoop.Tab.OnResponse | app/app_import.js:253-258 | The state after a response |
| RequestLoop.Tab.OnPreview | app/app_export.js:77-82 | The state after a preview was read: it's shown exactly if the form hasn't changed; an EXPORT gets the file of the preview exactly if the field doesn't have the focus, and as many params; otherwise the form stays, and is sent again |
| RequestLoop.Tab.OnThrow | app/app_import.js:265-267 | The state after a fetch or the reading of a preview has thrown |
| RequestLoop.Tab.ShowParams | app/app_export.js:45-59 | There are as many params as the count, and those that were there keep their text |
| RequestLoop.OneInFlight | app/app_import.js:242-268 | However edits and responses interleave, at most one request is in flight, there are no more requests than edits, and when none is in flight the last one had the latest contents exactly if `changed` is false |
| RequestLoop.ShownIsCurrent | app/app_import.js:257-263 | A preview is shown exactly if the form hasn't changed since its request, so it's for what the form has |
| RequestLoop.IdleIsLatest | app/app_export.js:67-87 | When no request is in flight the last one had the latest contents, unless a fetch has thrown while the form had changed |
| RequestLoop.LostUntilChanged | app/app_export.js:84-86 | In every run: after a fetch has thrown, the last request isn't the latest exactly if the form had changed, and the next change sends everything |
| RequestLoop.Coalesces | app/app_import.js:248-250 | Any number of changes while a request is in flight send nothing |
| RequestLoop.Settles | app/app_export.js:67-87 | After at most one more request the latest preview is shown and nothing is in flight |
| SavedOrder.SavedIsLatest | app/app_export.js:62-63 | What the server has saved is the last request it answered with a preview, and the latest contents when nothing is in flight, if no fetch has thrown before the server was done (see EndsLatestIff for when one has) |
| SavedOrder.StaysLatestIff | app/app_export.js:62-63 | For every state of the loop: however it goes on without abandoning a request, what's saved is what was last answered with a preview, exactly if that's so now and the server is done with every request but the one in flight |
| SavedOrder.EndsLatestIff | app/app_export.js:62-63 | For every run and every next event: this guarantee ends exactly with a fetch that throws before the server was done with its request |
| SavedOrder.AbandonedIsSavedLast | app/app_export.js:62-63 | A run where an earlier request is saved last, after it was abandoned |
| RequestLoop.ShownForOtherFile | app/app_import.js:287-301 | A run where the box is shown for the file before the one that's chosen |
| RequestLoop.ShowsOtherFileIff | app/app_import.js:287-301 | For every run and every next event: a preview is shown for another file than the chosen one exactly if it was read for an unchanged form while another file was chosen after the last change |
| RuleLabels.NextRank | scripts/standard-index.py:241-255 | The next label is the one after, for every kind of label |
| RuleLabels.FirstRank | scripts/standard-index.py:237-238 | The first label of a depth is number 1 |
| RuleLabels.NextMatchesIff | scripts/standard-index.py:224-255 | Every label but the last one of its kind (Z, a pair with z, xlix, XLIX) has a next one that is a label of the same depth |
| RuleLabels.RomanIndex | scripts/standard-index.py:245-249 | Every Roman numeral of the list is in it once |
| StandardIndex.FindDepth | scripts/standard-index.py:296-308 | The depth is the candidate with the closest indentation, and the first of them; there is none only if no depth is a candidate. A candidate at exactly its indentation is chosen (or an earlier one with the same), and a new depth that's indented by 6 more, unless another candidate has its indentation |
| StandardIndex.LabelOfIff | scripts/standard-index.py:296-297 | A line starts with a label exactly if it's a number or a word, a closing parenthesis, a space and a text |
| StandardIndex.Rules | scripts/standard-index.py:268-321 | The rules are those of reading the lines one by one. For any lines and indentation, the ones below each heading are strictly increasing in pre-order without gaps, each has its label, text and lines, goes on until the next rule or heading, and no first rule of a section is missed |
| StandardIndex.NewPath | scripts/standard-index.py:303-318 | A rule that's accepted comes after all rules before it |
| StandardIndex.NewNoGap | scripts/standard-index.py:303-318 | The rules it is within, and the one before it at its depth, were yielded before |
| StandardIndex.OneRule | scripts/standard-index.py:310-316 | Every line after the label of a rule, up to the next heading, belongs to exactly one rule |
| StandardIndex.NumbersDistinct | scripts/standard-index.py:318 | No two rules below one heading have the same number |
| StandardIndex.DottedSame | scripts/standard-index.py:318 | A dotted number has only one list of labels |
| RuleDepths.LetterOrNumeral | scripts/standard-index.py:258-308 | An i) after an h) is the next letter if it's indented by up to 3 more than the letters, and otherwise the first numeral within the h) |
| RuleDepths.LastRule | scripts/standard-index.py:268-321 | For the lines 1), a) to h) and then an i), the last rule is 1.i if the i) is indented by up to 9, and otherwise 1.h.i |

## Left out

- The engine (parser, MVCC, write-ahead log, B-tree), which is only known as contracts of the CLI.
- Running out of memory, threads, signals and `atexit` itself.
- The order of the list of SQL-connections and its pointers: the list is a map by the handle of the CLI, and the agent
  finds an SQL-connection by name, where at most one fits. The list of prepared statements is kept as a list.
- Runtime.Agent.Select: what is assigned to the targets is in Retrieval, and the agent only has the return code of an assignment.
- Runtime.Agent.FetchRow: which row is fetched is decided by the engine.
- Runtime.Agent.ExecutePrepared: what an SQL descriptor area has is an input, as the status that Descriptors gives for it.
- Runtime.Agent.UseArea: the status of the area is an input of the run too. DescriptorAreas has the areas.
- Runtime.Agent.Describe: likewise.
- Runtime.Agent.ExecuteImmediate: whether a query has columns when it's prepared, so that it's 42000 and isn't executed,
  is decided by the engine.
- Runtime.Agent.Bind: the values that are bound are in Descriptors.
- Runtime.Agent.Diag: the texts of the conditions, the command function and the row count are left out.
- COMMIT AND CHAIN and ROLLBACK AND CHAIN.
- `vsql_m_item_text`, `vsql_m_item_number`, `vsql_m_violated` and `vsql_m_message`, which are look-ups or single loops.
- Retrieval.Assign: values have no null character and are valid UTF-8; targets of DOUBLE PRECISION, REAL, SMALLINT and
  BIGINT are read directly like INTEGER.
- Descriptors.ReadData: approximate numbers are values that aren't looked into, and whether the text of a DECIMAL fits in
  PRECISION + 3 octets is up to the engine.
- Scanner.CountersAgreeIff: comments in which the application reads the start of another comment or of a literal.
- Names.ParseNameIff: letters outside of ASCII are only in delimited identifiers, as in the runtime.
- GuessType.GuessIntegerIff: the regular expressions for BOOLEAN, DATE, TIMESTAMP and DOUBLE PRECISION are left out.
- EditTable.ScriptWorksIff: what depends on rows, on other tables, on indexes, on generated columns and on CHECK and
  UNIQUE constraints (a column of one with several columns can't be dropped), and whether the text of a type or default
  is valid. The name of a constraint is printed as it was read, and is compared like that. The name of the table itself is
  one that can be read. Text in quotes that isn't one identifier is a name that can't be added.
- StandardIndex.Rules: how a line is split into indentation and words, and letters and digits outside of ASCII.
- Reading PDF files, caching, and the rest of `scripts/standard-index.py`.
- The rest of the pages of the application (dialogs, sorting, history, results) and their appearance.
- RequestLoop.OneInFlight: what the server answers is an input, and the fields of a form but the file and the params are one text.
