# Recipe handler core, modelled in Dafny

The recipe handler moves step recipes between servo units and a SQL store.
- **Download.** It reads each unit's running steps over OPC UA and stores them as rows.
- **Upload.** It writes stored rows back to the units.
- **Consistency checks.** It compares stored values with the values on the devices.
- **Alarms.** It sends SMS alerts for active alarms to selected phone-book entries.
- **Data grids.** It shows alarm and log files in the main window's grids.

This project models the rule sets inside that plumbing and proves what they promise. OPC UA sessions, SQL queries, pings, clocks and file listings are inputs.

Modules:

- `Wrappers`, `PyStr`, `PyValue`, `PyDict`: the parts of Python that the core relies on.
  - `Option` and `Result`; `Result` carries the error paths.
  - `str.strip`, `lower`, `in`, `find`, `split(sep, n)`, `str()` and `int()`.
  - Python scalars. A float is kept as its repr.
  - The insertion-ordered dict: `d[k] = v` keeps an existing key's place and appends a new key.
- `OpcuaClient` (src/opcua_client.py):
  - the pre-order flattening of the address space;
  - `get_stepdata` over a tree of `Node` values;
  - `write_tag`'s coercion to the declared variant type and its `(result, fault)` outcome;
  - `get_opcua_value`'s type naming.
- `MsSql` (src/ms_sql.py):
  - resolving the participating units from the structure map;
  - the download loop, with the array path, the scalar path and the success flag;
  - the upload loop, with the wipe gate, per-unit row filter and namespace re-qualification;
  - the `re.sub` namespace strip;
  - `check_recipe_data` and `db_opcua_data_checker`.
- `OpcuaAlarm` (src/opcua_alarm.py):
  - the message dict `event_notification` builds and the decision it makes;
  - `user_notification`'s selection of SMS recipients by active flag, weekday, inclusive time window and inclusive severity band.
- `Gui` (src/gui.py):
  - the three-slot alarm-log reader;
  - the `split("|", 3)` log-line splitter;
  - the swedish/english toggle;
  - an `App` class whose grids the fillers replace.
- `EditStepsWindow` (src/edit_steps_window.py): a class holding the recipe rows and the grid.
  - `update_treeview` clears the grid and refills it with the case-insensitive matches of the search term.
  - `save_changes` replaces the value column of one grid item.
  - src/gui.py:338-455 holds a second copy of this class (`update_treeview` at 393-403, `save_changes` at 428-432). The same members model both copies.
- `CreateLog` (src/create_log.py):
  - the suppress filter;
  - the log folder and file naming;
  - the record format;
  - `delete_old_logs` as a `LogDir` class.
- `IpChecker` (src/ip_checker.py): `check_ip` with pings as an input function.

Where the code does something evidently unintended, the model says so and what it does.

- `steps[step]` at src/ms_sql.py:90 indexes a list with a dict. The model iterates records, then fields.
- `.items()` at src/ms_sql.py:402 is called on a list. The model iterates records, then fields.
- Where the code deviates but still runs, the model keeps its behaviour as written:
  - the stale `unit_id` in the match at src/ms_sql.py:110-117;
  - the flag at src/ms_sql.py:125 is assigned, not ANDed, so a later success masks an earlier failure (`DownloadMasksEarlierFailure` builds such a run);
  - the upload returns True whenever it returns.
- Operations that depend on I/O take that I/O as function-valued parameters:
  - `DownloadIo`, `UploadIo` and `Device` for the devices and the store;
  - `Pinger` for `ping`;
  - `TimeFormatter` for `fromisoformat`/`strftime`;
  - `FloatParser` and `FloatTruncation` for `float()` and `int()` on floats.

## Model

| member | source | states |
|---|---|---|
| OpcuaClient.GetNodeChildren | src/opcua_client.py:13-22 | The list given (or `[node]` when none) followed by each child's subtree in pre-order; with no list, exactly the pre-order of the node |
| OpcuaClient.ChildOrders | src/opcua_client.py:19-21 | One flattened subtree per child |
| OpcuaClient.PreOrderMember | src/opcua_client.py:13-22 | The flattening starts with the node and holds exactly the node and the nodes of its children's subtrees |
| OpcuaClient.PreOrderHoldsDescendant | src/opcua_client.py:19-21 | Every node under any child is in the flattening |
| OpcuaClient.GetStepData | src/opcua_client.py:46-91 | The loop returns the records of the array items in server order, or None when there are none |
| OpcuaClient.ItemRecordFields | src/opcua_client.py:69-81 | Each field of a record comes from the first Variable child with its display name, and every such first child contributes one. Every Variable child's name appears, and names are distinct |
| OpcuaClient.NamedVariable | src/opcua_client.py:71-81 | Every name in a record is the display name of a Variable child |
| OpcuaClient.ItemRecordEmpty | src/opcua_client.py:69-84 | A record is empty iff no child of the item is a Variable |
| OpcuaClient.StepRecordsAppend | src/opcua_client.py:58-84 | The records of two runs of items are the records of each run, concatenated; server order is kept |
| OpcuaClient.SkippedContributesNothing | src/opcua_client.py:63-65 | An item whose path has an element containing "[0]" adds no record, wherever it stands |
| OpcuaClient.StepRecordsNonEmpty | src/opcua_client.py:83-84 | No record in the result is empty |
| OpcuaClient.StepDataNone | src/opcua_client.py:83-91 | No records iff every item is skipped or has no Variable child |
| OpcuaClient.StepDataNoneIff | src/opcua_client.py:86-91 | get_stepdata gives None, never an empty list, exactly when every item is skipped or has no Variable child |
| OpcuaClient.ConversionFor | src/opcua_client.py:209-218 | Boolean maps to the bool conversion, Float to float, the six integer types to int; no other type has a conversion |
| OpcuaClient.ToBool | src/opcua_client.py:193-199 | Succeeds iff given a bool or a str, and then gives a bool |
| OpcuaClient.ToInt | src/opcua_client.py:205-206 | Gives an int. On a str it succeeds iff the text is an integer literal; no sign check |
| OpcuaClient.Stage | src/opcua_client.py:222-230 | A staged value is a number, or the str itself for a String target. Conversion raises only for a mapped type given a str or int |
| OpcuaClient.WriteTag | src/opcua_client.py:164-251 | fault iff the client was disconnected. The result is one of the three messages. Success iff a value was written without fault. A write only goes to a resolved tag with its declared type. "Tag not found" always comes with a fault and no write |
| OpcuaClient.WriteTagBoolean | src/opcua_client.py:193-199 | A Boolean target writes a bool as it is and a str as `lower() == "true"`; an int faults with "Tag not found" and no write |
| OpcuaClient.WriteTagInteger | src/opcua_client.py:205-237 | An integer target given a non-integer str faults with "Tag not found" and no write; otherwise it hands the parsed int to the write, without a sign check |
| OpcuaClient.WriteTagNoCorrectValue | src/opcua_client.py:222-232 | An unmapped type, or a String target given a non-str, writes nothing: "Tag found but no correct tag value" with no fault |
| OpcuaClient.ToBoolOfStr | src/opcua_client.py:193-197 | The printed form of a bool converts back to that bool |
| OpcuaClient.ToIntOfStr | src/opcua_client.py:205-206 | The printed form of an int converts back to that int |
| OpcuaClient.StoredType | src/opcua_client.py:331-350 | Boolean, Float, UInt16, UInt32, UInt64 and String get a name, which is the type's own name except Int32 for UInt32 and Int64 for UInt64. Every other type is left as it is |
| OpcuaClient.GetOpcuaValue | src/opcua_client.py:309-366 | The flag is set iff connected and the reads succeed, and then gives the value and the stored type name; otherwise (False, None, None) |
| MsSql.ResolveUnits | src/ms_sql.py:37-42 | Three aligned lists holding exactly the map rows whose structure id is the requested one, in map order |
| MsSql.ParticipantsAppend | src/ms_sql.py:37-42 | Resolving two runs of map rows is resolving each, concatenated |
| MsSql.ParticipantsMember | src/ms_sql.py:37-42 | A unit participates iff some map row with the requested structure id names it |
| MsSql.StripNamespace | src/ms_sql.py:130 | The result is a suffix of the input. When it differs, it starts with the first `"`, and nothing before that quote is a `"` or a newline. It equals the input iff there is no `"`, the input starts with one, or a newline comes before the first one |
| MsSql.StripNamespaceIdempotent | src/ms_sql.py:130 | Stripping twice is stripping once |
| MsSql.StripRequalify | src/ms_sql.py:238 | Stripping `ns=<i>;s=<tag>` gives back the tag whenever the tag starts with `"` |
| MsSql.NoneFree | src/ms_sql.py:372-375 | True iff no row contains None |
| MsSql.CheckRecipeData | src/ms_sql.py:349-381 | True iff the query succeeded, returned rows and no row contains None |
| MsSql.UnitName | src/ms_sql.py:77-84 | Ids 1, 2 and 3 and only they are named SMC1, SMC2 and Master |
| MsSql.RecordRows | src/ms_sql.py:90-103 | One add_value row per field of a step |
| MsSql.ExecutedAppend | src/ms_sql.py:97-106 | Executing one more row keeps it iff its add_value call succeeds |
| MsSql.ExecutedConcat | src/ms_sql.py:97-106 | The rows kept from two runs are the rows kept from each, concatenated |
| MsSql.AllExecutedConcat | src/ms_sql.py:104-106 | All rows of two runs succeed iff all rows of each do |
| MsSql.ExecuteFields | src/ms_sql.py:90-106 | The loop over one step's fields keeps exactly the rows that succeeded, and reports success iff all did |
| MsSql.ExecuteSteps | src/ms_sql.py:88-106 | The loop over the steps keeps exactly the rows that succeeded, reports success iff all did, and binds recipe_id iff some row was emitted |
| MsSql.DownloadRaisedSticks | src/ms_sql.py:68-143 | Once a unit raises, later units change nothing |
| MsSql.DownloadUnitBody | src/ms_sql.py:68-143 | One pass of the unit loop computes the modelled transition |
| MsSql.FromUnitsToSqlStepdata | src/ms_sql.py:17-167 | The whole download computes the modelled outcome: return value, committed rows, step counts |
| MsSql.StepRowsAppend | src/ms_sql.py:88-103 | The rows of two runs of steps are the rows of each, concatenated |
| MsSql.StepRowsLayout | src/ms_sql.py:88-103 | Rows come steps-then-fields: those of earlier steps, then step s's, then later steps'; their number is the total field count |
| MsSql.StepRowsCount | src/ms_sql.py:88-103 | There is exactly one row per (step, field) |
| MsSql.DownloadArrayPath | src/ms_sql.py:68-106 | On the array path with steps, the unit's step count is recorded under its name and its executed rows are appended. The flag stays set iff it was set and every row succeeded |
| MsSql.DownloadNoStepsIgnoresUnit | src/ms_sql.py:108-120 | With no steps the outcome does not depend on the unit's own id. With the stale id 3 the flag is kept; otherwise it is cleared. It raises iff the stale id is not 1, 2 or 3 and `unitname` is unbound |
| MsSql.DownloadScalarOverwrites | src/ms_sql.py:122-143 | A successful scalar read and store sets the flag even after an earlier failure |
| MsSql.DownloadMasksEarlierFailure | src/ms_sql.py:125 | A concrete run: a failed array unit clears the flag, and the next scalar unit sets it again |
| MsSql.Wipe | src/ms_sql.py:317-346 | No result iff the connection fails |
| MsSql.RowsFor | src/ms_sql.py:198 | Every row kept belongs to the unit and comes from the step data |
| MsSql.WriteRowsRaisedSticks | src/ms_sql.py:235-243 | Once a node id raises, later rows change nothing |
| MsSql.UploadRaisedSticks | src/ms_sql.py:191-256 | Once a unit raises, later units change nothing |
| MsSql.WriteUnitRows | src/ms_sql.py:235-243 | The loop over a unit's rows computes the modelled row writes |
| MsSql.UploadUnitBody | src/ms_sql.py:191-256 | One pass of the unit loop computes the modelled transition: wipe, gate, rows, connection, the namespace lookup that may raise, the row writes and the recipe name |
| MsSql.FromSqlToUnitsStepdata | src/ms_sql.py:170-264 | The whole upload computes the modelled outcome: return value, device writes, message shown. A failed namespace lookup or a rejected node id ends it with that exception |
| MsSql.WriteRowsOrigin | src/ms_sql.py:235-241 | Every value a unit's device took carries that unit, a tag re-qualified from one of its rows, and that row's value |
| MsSql.UploadWritesTraced | src/ms_sql.py:190-253 | Every write comes from a listed unit. It is either a stored row of that unit, re-qualified with the unit's namespace index and carrying that row's value, or the recipe name |
| MsSql.UploadGate | src/ms_sql.py:194-196 | A unit's device is written only when its wipe did not report a fault (no connection counts as no fault), or when it is the Master |
| MsSql.WriteRowsRaises | src/ms_sql.py:235-241 | The loop over a unit's rows raises iff the device rejects one of the rows' re-qualified node ids |
| MsSql.UploadUnitRaises | src/ms_sql.py:194-243 | A unit's turn raises iff it passes the gate, has rows and a connection, and then the namespace lookup fails or a node id is rejected; earlier units do not matter |
| MsSql.UploadUnitsRaises | src/ms_sql.py:190-256 | The unit loop raises iff some unit's turn raises |
| MsSql.UploadErrorKinds | src/ms_sql.py:213-239 | Only the namespace lookup and `ua.NodeId.from_string` raise out of the unit loop |
| MsSql.UploadReturnsTrue | src/ms_sql.py:187-264 | The upload raises iff there are no units or some unit's turn raises (a failed namespace lookup or a rejected node id), and then it raises one of those two; whenever it returns, it returns True |
| MsSql.FieldItems | src/ms_sql.py:403-408 | One (identifier, str(value)) assignment per field, in field order |
| MsSql.StoreItems | src/ms_sql.py:424-430 | One (tag name, tag value) assignment per row, in row order |
| MsSql.DeviceLookup | src/ms_sql.py:433 | A device value is found iff the tag name is a str among the device's identifiers |
| MsSql.Classify | src/ms_sql.py:433-439 | Missing iff the device lacks the tag; equal iff the stored value is the device's text |
| MsSql.Verdicts | src/ms_sql.py:432-439 | One verdict per stored tag, in the stored dict's order |
| MsSql.CheckerAnswersOnlyConnected | src/ms_sql.py:396-448 | The checker answers True or False iff it has step data and a database connection; otherwise it raises and logs no verdict |
| MsSql.VerdictsCoverTags | src/ms_sql.py:420-439 | The verdicts over the stored dict name each distinct stored tag name once, and no other tag |
| MsSql.CheckerCoversTags | src/ms_sql.py:410-441 | With step data and complete rows the checker returns True whatever it finds, and gives one verdict per distinct stored tag name, and for no other tag |
| MsSql.CheckerComparesLast | src/ms_sql.py:402-439 | Each verdict compares the last value the rows give for the tag with the last text the device gives for it |
| MsSql.CollectDeviceResults | src/ms_sql.py:400-408 | The loop fills the device dict with every field's assignment in step-then-field order |
| MsSql.CollectStepResults | src/ms_sql.py:403-408 | The inner loop adds one step's field assignments in field order |
| MsSql.CollectStoreResults | src/ms_sql.py:420-430 | The loop over the rows stops with no dict iff some row holds None; otherwise it fills the stored dict with every row's assignment in row order |
| MsSql.CompareResults | src/ms_sql.py:432-439 | The loop logs the modelled verdict for each stored tag |
| MsSql.DbOpcuaDataChecker | src/ms_sql.py:384-448 | The checker computes the modelled outcome. It raises without step data. Without a database connection the `finally` clause's `cnxn.close()` raises. With one, it gives False for a failed query, no rows or a row holding None |
| OpcuaAlarm.ParseHHMM | src/opcua_alarm.py:185-186 | A parsed time of day lies within the day |
| OpcuaAlarm.ParseHHMMAccepts | src/opcua_alarm.py:185-186 | `%H:%M` accepts exactly one or two digits of hour up to 23, a colon, and one or two digits of minute up to 59 |
| OpcuaAlarm.Pad2 | src/opcua_alarm.py:185 | Two digits whose value is the number |
| OpcuaAlarm.FormatHHMM | src/opcua_alarm.py:185 | Five characters with a colon in the middle |
| OpcuaAlarm.ParseFormatHHMM | src/opcua_alarm.py:185-186 | Every time of day, written as HH:MM, parses back to itself |
| OpcuaAlarm.SettingMatch | src/opcua_alarm.py:184 | A setting whose days do not include today never selects and never raises |
| OpcuaAlarm.SettingSelects | src/opcua_alarm.py:184-194 | A setting selects iff today is one of its days, now is in the inclusive window (a missing end reads as 00:00), and the severity is in the inclusive band |
| OpcuaAlarm.SettingRaises | src/opcua_alarm.py:184-192 | A setting raises iff today is one of its days and a time cannot be parsed, or now is in the window and a severity bound is not an int |
| OpcuaAlarm.DefaultWindowIsMidnight | src/opcua_alarm.py:185-188 | With neither time given, a setting selects only at exactly 00:00:00.000000 |
| OpcuaAlarm.MatchSetting | src/opcua_alarm.py:184-194 | The decision for one setting is the modelled match |
| OpcuaAlarm.NotifySetting | src/opcua_alarm.py:184-201 | One setting either raises, sends one SMS or does nothing, as its match says |
| OpcuaAlarm.NotifyUser | src/opcua_alarm.py:181-202 | The loop over one entry's settings computes the modelled loop |
| OpcuaAlarm.NotifyEntry | src/opcua_alarm.py:180-202 | An entry is considered only when its Active is 'Yes'; an inactive entry changes nothing |
| OpcuaAlarm.UserNotification | src/opcua_alarm.py:173-202 | Looks up today's name in day_translation, then the loop over the phone book computes the modelled notifications |
| OpcuaAlarm.SettingsLoopRaisedSticks | src/opcua_alarm.py:183-202 | Once a setting raises, later settings change nothing |
| OpcuaAlarm.UsersLoopRaisedSticks | src/opcua_alarm.py:179-202 | Once an entry raises, later entries change nothing |
| OpcuaAlarm.PickedAppend | src/opcua_alarm.py:183-199 | One more setting adds one SMS iff it selects |
| OpcuaAlarm.PickedAllAppend | src/opcua_alarm.py:179-199 | One more entry adds exactly that entry's SMSes after the earlier ones |
| OpcuaAlarm.SettingsLoopRaised | src/opcua_alarm.py:183-192 | The loop over settings raises iff some setting's test raises |
| OpcuaAlarm.SettingsLoopSent | src/opcua_alarm.py:183-199 | Without an exception, the loop over settings sends one SMS per selecting setting, in setting order |
| OpcuaAlarm.UsersLoopRaised | src/opcua_alarm.py:179-192 | The loop over the phone book raises iff some active entry has a setting whose test raises |
| OpcuaAlarm.UsersLoopSent | src/opcua_alarm.py:179-199 | Without an exception, the loop sends the SMSes of the active entries' selecting settings, in phone-book order, then setting order |
| OpcuaAlarm.NotifyUsersRaised | src/opcua_alarm.py:179-192 | Once today's name is translated, user_notification raises iff some active entry has a setting that raises |
| OpcuaAlarm.NotifyUsersSent | src/opcua_alarm.py:179-199 | Otherwise it sends to active entries only, once per selecting setting, in phone-book then setting order. The text is "Medelande från pumpstation: <message>, allvarlighetsgrad: <severity>" |
| OpcuaAlarm.NotificationRaised | src/opcua_alarm.py:177-192 | user_notification raises iff today's name is missing from day_translation (KeyError, even with an empty phone book) or some active entry has a setting that raises |
| OpcuaAlarm.NotificationSent | src/opcua_alarm.py:177-199 | Without an exception, today's name was translated and the SMSes sent are those picked for the translated name |
| OpcuaAlarm.Unwrap | src/opcua_alarm.py:151-152 | A value with a `Text` becomes that text; any other value is kept |
| OpcuaAlarm.AttrItems | src/opcua_alarm.py:148-153 | Only listed attributes that the event has are assigned |
| OpcuaAlarm.BuildAlarmMessage | src/opcua_alarm.py:138-156 | The loop builds the modelled message dict |
| OpcuaAlarm.AttrItemsLast | src/opcua_alarm.py:148-153 | An attribute's entry is the unwrapped event value when listed and present, and absent otherwise |
| OpcuaAlarm.AttributesToCheckFacts | src/opcua_alarm.py:142-146 | The eleven attribute names are distinct and differ from the source and Identifier keys |
| OpcuaAlarm.AttrMessageEntry | src/opcua_alarm.py:138-153 | Before Identifier, the dict holds the address under its key and exactly the present listed attributes, unwrapped |
| OpcuaAlarm.AlarmMessageEntries | src/opcua_alarm.py:138-156 | The message dict holds the address, the present listed attributes unwrapped, and Identifier as a str exactly when NodeId has one |
| OpcuaAlarm.EventAction | src/opcua_alarm.py:160-169 | Raises KeyError iff a needed key is missing. An action happens iff ActiveState is "Active": Notify with message and severity when SMS sending is on, otherwise LogOnly with the message |
| OpcuaAlarm.InactiveEventIgnored | src/opcua_alarm.py:162-169 | An event whose ActiveState is not "Active" causes no action |
| Gui.LogFiles | src/gui.py:808 | The listed files are exactly those of the folder whose names end in ".log" |
| Gui.ReadLine | src/gui.py:818-831 | A "Message:" line sets only the message, to the stripped text after "Text=", and raises without "Text=". Otherwise a "Time:" line sets only the reformatted time. Otherwise a "State:" line sets only the state. Any other line changes nothing |
| Gui.ScanLine | src/gui.py:816-839 | One line raises iff reading it raises. A complete triple inserts (time, message) iff the state lower-cases to "true", and then all three slots reset. After a line the slots are never all set |
| Gui.BlankLineKeepsSlots | src/gui.py:816-817 | A line that is empty after strip changes nothing |
| Gui.MessageLineWins | src/gui.py:818-831 | A line with "Message:" leaves time and state alone, whatever other markers it has |
| Gui.ScanLinesRaisedSticks | src/gui.py:815-839 | Once a line raises, later lines change nothing |
| Gui.ScanFilesRaisedSticks | src/gui.py:810-839 | Once a file raises, later files change nothing |
| Gui.ScanLinesRows | src/gui.py:833-839 | Rows only accumulate, and each new row has a non-empty time and message |
| Gui.ScanAlarmFile | src/gui.py:812-839 | The loop over a file's lines, starting from empty slots, computes the modelled reader |
| Gui.LogColumns | src/gui.py:883-885 | A log line splits into one to four columns |
| Gui.LogColumnsRoundTrip | src/gui.py:883-885 | Only the last column can hold "\|". Joining the columns with "\|" gives the stripped line, and splitting that join gives the same columns |
| Gui.LogFileRows | src/gui.py:882-886 | The loop over a file's lines yields the columns of each non-empty stripped line, in order |
| Gui.LoggerFileListed | src/gui.py:878 | The file a logger writes, `<name>.log`, is among the files the log grid reads |
| Gui.LoggedRecordColumns | src/gui.py:885 | A record the logger formats splits back into its time, level, name and message |
| Gui.Toggled | src/gui.py:767 | The result is "swedish" iff the language was "english", and "english" otherwise; from either language it switches to the other |
| Gui.ToggleTwice | src/gui.py:767 | Toggling twice restores the language |
| Gui.App.constructor | src/gui.py:766 | A window starts with its language and two empty grids |
| Gui.App.ChangeLanguage | src/gui.py:766-771 | The language is toggled and both grids are kept |
| Gui.App.AddOpcuaAlarmToDatagrid | src/gui.py:802-839 | The alarm grid is cleared and then holds exactly the rows read from the ".log" files; reports whether a line raised. The other grid and the language are kept |
| Gui.App.AddLogsToDatagrid | src/gui.py:872-886 | The log grid is cleared and then holds the split columns of every non-empty line of the ".log" files. The other grid and the language are kept |
| EditStepsWindow.Display | src/edit_steps_window.py:73-74 | A row is shown as (unit_name, tag_name, tag_value, unit_id) |
| EditStepsWindow.Matching | src/edit_steps_window.py:86-90 | Never more shown rows than rows |
| EditStepsWindow.MatchingMembers | src/edit_steps_window.py:86-90 | A row is shown iff its tag name contains the search term, compared in lower case |
| EditStepsWindow.EmptySearchShowsAll | src/edit_steps_window.py:72-74 | An empty search shows every row, in order |
| EditStepsWindow.Values | src/edit_steps_window.py:90 | The grid's values, item by item |
| EditStepsWindow.Edited | src/edit_steps_window.py:123-124 | Only the selected item changes. It keeps its first column, gets the given tag name and unit id, and takes the edited value |
| EditStepsWindow.SaveKeepsOtherColumns | src/edit_steps_window.py:123-124 | Saving a displayed item changes only its value column |
| EditStepsWindow.EditStepsWindow.constructor | src/edit_steps_window.py:72-74 | A new window shows every row, in order |
| EditStepsWindow.EditStepsWindow.Insert | src/edit_steps_window.py:90 | Appends one item with a fresh id |
| EditStepsWindow.EditStepsWindow.UpdateTreeview | src/edit_steps_window.py:79-90 | The grid is cleared, then holds exactly the matching rows, in order |
| EditStepsWindow.EditStepsWindow.SaveChanges | src/edit_steps_window.py:118-124 | The grid becomes the edited grid; ids are kept |
| CreateLog.Filter | src/create_log.py:11-15 | Returns 0 iff some entry of the suppress list is a substring of the message, else 1 |
| CreateLog.NoListKeepsAll | src/create_log.py:62-63 | Without a list, or with an empty one, every record is written |
| CreateLog.EmptyEntrySuppressesAll | src/create_log.py:12-14 | A list holding "" suppresses every record |
| CreateLog.LogFolder | src/create_log.py:50 | "alarms" iff the logger is named "alarms", else "logs" |
| CreateLog.LogFileName | src/create_log.py:54 | The logger name followed by ".log" |
| CreateLog.FormatRecordSplits | src/create_log.py:55 | A formatted record splits back into its four parts when the first three hold no "\|" |
| CreateLog.Kept | src/create_log.py:80-88 | Deleting never adds entries |
| CreateLog.KeptMembers | src/create_log.py:80-88 | An entry survives iff it was listed and is not a file older than the limit |
| CreateLog.KeptStep | src/create_log.py:80-88 | One more entry is kept iff it is not deleted |
| CreateLog.DirectoriesKept | src/create_log.py:84 | Directories are never deleted |
| CreateLog.LogDir.constructor | src/create_log.py:80 | The folder holds the given entries |
| CreateLog.LogDir.DeleteOldLogs | src/create_log.py:70-88 | The folder keeps exactly the entries that are not regular files strictly older than days_old * 86400 seconds |
| IpChecker.HostOf | src/ip_checker.py:20 | The host is the text before a ":" and holds no ":" |
| IpChecker.HostOfDefined | src/ip_checker.py:20 | The address splits iff it holds exactly one ":" |
| IpChecker.HostOfJoin | src/ip_checker.py:20 | `host:port` splits back to the host |
| IpChecker.Successes | src/ip_checker.py:22-25 | The success count never exceeds the number of pings |
| IpChecker.CheckIpResult | src/ip_checker.py:7-28 | Raises iff some entry does not hold exactly one ":". Otherwise there is one (name, host, status) per entry, in order, with status true iff exactly two pings answered |
| IpChecker.CountReplies | src/ip_checker.py:21-25 | The loop counts the pings that answered |
| IpChecker.CheckIp | src/ip_checker.py:7-28 | The loop over the configuration computes the modelled results |
| IpChecker.StatusNeedsExactlyTwo | src/ip_checker.py:26 | Fewer than two retries never give true, and three answered pings out of three give false |
| IpChecker.UnresolvedCounts | src/ip_checker.py:24 | A ping that returns False (host unknown) counts as a success |

## Left out

- OPC UA sessions are inputs: `connect_opcua`, `get_servo_steps`, `get_children_values`, `find_node_by_tag_name`, `get_namespace_index` and the reads and writes on nodes. The `Device`, `DownloadIo` and `UploadIo` functions stand for them.
- Store queries are inputs: SQL execution, `get_database_connection`, `get_units`, `get_recipe_structures_map`, commits and rollbacks. Query results are sequences of rows and `cursor.execute`'s success is a function. The upload takes the rows of `viewUnits`, and an empty list stands for the None that `get_units` returns.
- Floating-point values from the devices and the store are kept as their repr, and `float()` and `int()` of a float are the `FloatParser` and `FloatTruncation` parameters. The clock and file times in `delete_old_logs` and the ping durations in `check_ip` are exact reals, so float rounding in `current_time - file_creation_time` and in those durations is not modelled.
- CreateLog.LogDir.DeleteOldLogs: `os.remove` always succeeds in the model. An OSError from it, which ends the cleanup in the source, is not modelled, and neither is the `print` of each deleted path.
- OpcuaAlarm.UserNotification: a phone-book key present with JSON null is treated like a missing key. In the source, a null `timeSettings`, `days`, `startTime` or `endTime` of an active entry raises TypeError (src/opcua_alarm.py:181-186), because `get` returns None rather than the default.
- MsSql.FromSqlToUnitsStepdata: reading `configs/name_space.json` and `get_namespace_index` are one input, `UploadIo.namespaceIndex`; None stands for either of them raising, and both end the upload.
- `datetime.fromisoformat`/`strftime` in the alarm reader is the `TimeFormatter` parameter. `datetime.now()` gives two inputs: the English day name `strftime('%A')` would print, and the time of day in microseconds. `DAY_TRANSLATION` is the `day_translation` table of the configuration, passed as a `Dict`.
- `asyncio.sleep`, threads, reconnect loops, `subscribe_to_server` and `monitor_alarms` are not modelled: their point is concurrency.
- `send_sms` and the logger calls are not modelled as calls. The SMS calls are recorded as values; logging is left out.
- `user_notification`'s phone book is a parameter. Its severity is an int; the step from the event's Severity attribute to that int is not modelled.
- tkinter presentation is not modelled: widgets, headings, `showinfo`, language files, `on_double_click`'s dialog, the `update_value` store call after `save_changes`. A grid is the sequence of its items' values.
- EditStepsWindow.EditStepsWindow.SaveChanges: a selected id not in the grid leaves the grid unchanged, where tkinter would raise TclError.
- `setup_logger`'s handler, rotation and date format are not modelled; only the folder, file name, record layout and filter attachment are.
- `os.listdir` order is an input: the listing is a sequence of entries in the order the system gives.
- `str.lower` is ASCII-only, and `int()` accepts ASCII digits only; Python accepts Unicode letters and digits. The same holds for `strptime`'s `%H` and `%M`, whose `\d` also matches Unicode digits: `OpcuaAlarm.ParseHHMMAccepts` states the ASCII-digit case only.
- IpChecker.CheckIp: the configuration is a sequence of (name, address) pairs in file order, and `ping` is the `Pinger` input. JSON loading is left out. A name repeated in the JSON object loads as one entry (the last value, at the place of the first key), so the source gives one row for it where the model, given both pairs, gives two.
- Gui.LoggedRecordColumns: states the columns of the formatted record as one string. A message holding '\n' is written as several lines of the log file, and `add_logs_to_datagrid` shows each line as its own row.
- OpcuaAlarm.ParseHHMM: states only the range of the result. Which texts `%H:%M` accepts is stated by `ParseHHMMAccepts`.
- OpcuaAlarm.UsersLoopSent: the SMS list is stated for runs that do not raise. A run that raises is covered by `UsersLoopRaised` and the RaisedSticks lemmas.
