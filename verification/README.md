# Grid Engine: verified models of its stateful algorithms

This project models, in Dafny, the parts of Grid Engine that are self-contained algorithms over changing state, and
proves what they promise:

- **The accounting analyser** (`source/scripts/analyze.rb`): `Accounting`, `Debits`, `FileTotals`, `Timesteps`, `Sweep`,
  `Counting`, `Report`, `Printout`. Accounting lines become runs, the runs of a task a dense chain; every run is debited to the tables by user,
  queue, host and so on, and a sweep over all points in time maintains the lists of pending and running jobs. The lists
  are compared with the intervals a reader expects, and the printed counts with the debited totals.
- **The job parser** (`source/common/parse_job_cull.c`): `OptionList` (the list of options, consumed in place),
  `JobParser` (about fifty handlers), `JobTheorems` (which options a handler sees, what order matters, what is
  reported), `JobMeaning`, `JobDefinitions`, `JobLists` and `JobFields` (the values that end up in the job, and how
  parsing ends), `ScriptFile` (options embedded in files, and their priority).
- **The command line tokenizer** (`source/common/parse_qsub.c`): `Tokenizer`, `Switches` (which string is read as which
  switch); `EmbeddedOptions` has it read the directives of a file, and `Submission` hands what it reads to the job parser.
- **The password utility** (`source/utilbin/sge_passwd.c`): `Bytes`, `Sealing`, `HexCode`, `PasswordTable`.
- **Error bursts and polling of interactive jobs** (`source/common/sge_ijs_comm.c`): `CommErrors`, `CommWaits`.
- **The message text utility** (`source/utilbin/infotext.c`): `Escapes`, `WordWrap`.
- **Two smaller algorithms**: `Permutations` (`source/utilbin/permutation.c`), `GepMatrix`
  (`gep/glue/GEPServlet.java`).

`Machine`, `Optional` and `Seqs` hold words and character classes, optional values, and facts about slices.

Each algorithm that changes state in place is a class or a method with the loops of the source, proved against a
specification function; lemmas then say what that function means. Where a promise fails for some inputs, the lemma
states exactly for which, and another shows one of them. `dafny verify dfyconfig.toml` checks the whole project.

Where the code and its documentation or expectation differ, the model follows the code:

- A rerun whose requeue date lies in [start, end) leaves the running list at that date (`source/scripts/analyze.rb:638`),
  so the running counts add up to the run times exactly when there is no such rerun.
- Without records and with an open window the table of timesteps has no first and last, and printing it raises
  (`source/scripts/analyze.rb:662`); the model prints none.
- A second `-h` moves an already emptied list (`source/common/parse_job_cull.c:350-354`) and loses the tasks.
- When a list taken over as a whole defines a variable twice, later `-v` options change a definition that is dropped
  again (`source/libs/sgeobj/cull_parse_util.c:355-521`).
- The comment on `parse_script_file` limits lines to MAX_STRING_SIZE; the code has no such limit.
- A line of a defaults file with nothing but blanks before its end or `#` has no word, and the code then reads through a
  null table (`source/common/parse_job_cull.c:938-940`); the model stops there, and says exactly for which files.
- A lone `-` is refused at `source/common/parse_qsub.c:1923`, so the branch at line 1932 is never taken.
- `sge_passwd -d` blanks the first entry of a user only; with two entries the user keeps a password.
- A decoded password that is too short for key length, key and vector is read past its end, and the unsigned length
  that is left wraps (`source/utilbin/sge_passwd.c:666-728`); the model stops there.
- Waiting for a client succeeds without one when interrupted, although COMM_RETVAL_OK is documented as "a client is
  connected to us" (`source/common/sge_ijs_comm.c:819-821`).
- Unescaping drops a single character that follows an escape at the end (`source/utilbin/infotext.c:495-513`).
- A wrapped line that is too long is not followed by a newline (`source/utilbin/infotext.c:350-358`).
- Deleting or updating a project throws at an empty line of the list (`gep/glue/GEPServlet.java:372`).
- The job parser handles -jid, which no command line yields: the tokenizer refuses it as an unknown option.
- The mode of -hard and -soft survives a -clear, which is to forget what precedes it
  (`source/common/parse_qsub.c:449-456`).
- Recipients, paths and shells without a host count as being of one host, so `-M alice -M bob` sends mail to bob alone
  (`source/libs/sgeobj/cull_parse_util.c:450-451`).
- A wait of more than 2147 seconds never times out: the counter of microseconds is a signed word
  (`source/common/sge_ijs_comm.c:847`), whose overflow the model takes to wrap.
- A reported key length of 0 or above 10000 becomes 128, and a shorter key is read past
  (`source/utilbin/sge_passwd.c:594-605`); the model stops there.
- The enumerator prints only what precedes the first zero character, so over a range that contains it lines are
  shortened and, from two characters on, repeated (`source/utilbin/permutation.c:161`).
- The enumerator's counting loop does not end when the range ends at the largest character value.

## Model

| member | source | states |
|---|---|---|
| `Accounting.RecordTable.constructor` | source/scripts/analyze.rb:146-186 | after reading a file, the runs of every job and task are exactly the chain of its accepted lines in file order, with indices 1 to n, and the table lists each key once |
| `Accounting.RecordTable.NextRun` | source/scripts/analyze.rb:175-181 | the search finds the first free index of a task and the end of the run before it, 0 if there is none |
| `Accounting.ChainsAreLinked` | source/scripts/analyze.rb:174-183 | the run before each rerun is in the table, its end is the rerun's requeue date, and that date is 0 exactly for first runs |
| `FileTotals.LinesOfTask` | source/scripts/analyze.rb:155-173 | the runs of a task are exactly its lines with a start and an end of which some date is not before the window and some not behind it |
| `FileTotals.RunsInOrder` | source/scripts/analyze.rb:146-186 | runs come in the order of the file |
| `FileTotals.DatesOfRun` | source/scripts/analyze.rb:174-183 | queueing, start and end of a run are those of its line, the requeue date is the end of the line before |
| `Debits.Debitable.DebitRecord` | source/scripts/analyze.rb:54-65 | adds one job and the run's charges, pending time counted from requeueing when there was one, to the six columns |
| `Debits.GroupTable.constructor` | source/scripts/analyze.rb:217-229 | a table has a row for exactly the groups that occur, and each row the totals of its runs |
| `Debits.GroupTable.Enter` | source/scripts/analyze.rb:219-224 | entering a run changes the cells of its own group by its charges and no other cell |
| `Debits.RowsAddUp` | source/scripts/analyze.rb:217-325 | whatever a table groups by, its rows distribute the same grand total of each column |
| `FileTotals.CellsAreSumsOfLines` | source/scripts/analyze.rb:54-65 | every cell of every group table, pending time aside, is the sum of that column of the file over the lines that are runs of the group |
| `Timesteps.FirstAndLast` | source/scripts/analyze.rb:470-475 | the first and last timestep are the least and greatest event time |
| `Timesteps.CollectEvents` | source/scripts/analyze.rb:448-468 | the collected times are those of queueing or requeueing, start and end of the runs, and each kind of event lists its runs per time in order |
| `Timesteps.TimestepTable.File` | source/scripts/analyze.rb:490-504 | filing the events of one kind fills that list of every timestep and leaves all else |
| `Timesteps.TimestepTable.constructor` | source/scripts/analyze.rb:448-508 | there is a timestep for exactly the event times, each holds exactly its events, and first and last are the ends |
| `Sweep.ListMember` | source/scripts/analyze.rb:664-667 | for arbitrary dates: after a timestep, a run is on the pending or running list exactly from its entry to the first removing event not before it |
| `Sweep.ListOnce` | source/scripts/analyze.rb:664-667 | no run is on a list twice |
| `Sweep.SweepShowsIntervals` | source/scripts/analyze.rb:664-667 | the lists are queue time <= t < start and start <= t < end at every timestep exactly when every run is in order |
| `Sweep.ListsAreApart` | source/scripts/analyze.rb:664-667 | with runs in order no run is pending and running at once |
| `Sweep.ListsEndEmpty` | source/scripts/analyze.rb:664-667 | with runs in order both lists are empty after the last timestep |
| `Counting.TallyIsSize` | source/scripts/analyze.rb:681-683 | the size of a duplicate-free list is the number of runs that are on it |
| `Counting.AreaByJobs` | source/scripts/analyze.rb:664-685 | list sizes times gaps, summed over time, equal the listed time summed over runs |
| `Sweep.PresenceIsStay` | source/scripts/analyze.rb:664-667 | the time a run is listed up to a timestep is that between its entry and its removal |
| `Sweep.AreaIsSumOfStays` | source/scripts/analyze.rb:664-685 | for arbitrary records the area under the counts is the sum of the stays of all runs |
| `Sweep.PendingTotalIsDebited` | source/scripts/analyze.rb:60-64 | judging reruns by requeue date, as the debit does, and by index, as the sweep does, gives the same pending total |
| `Sweep.StayDeviation` | source/scripts/analyze.rb:664-667 | a run out of order is listed longer than expected as pending, and shorter as running |
| `Sweep.PendingAreaIsDebited` | source/scripts/analyze.rb:54-65 | the area under the pending counts equals the debited pending time exactly when every run was queued before it started |
| `Sweep.RunningAreaIsRuntime` | source/scripts/analyze.rb:664-667 | for arbitrary dates the area under the running counts is the sum of end minus start plus, for each run, how far its stay exceeds that; for runs that end after they start it is the sum exactly when no requeue date lies between a rerun's start and end |
| `Report.FileByCategory` | source/scripts/analyze.rb:629-635 | a list of jobs is split into its categories, each job once under its own, in order |
| `Report.JobsOfConcat` | source/scripts/analyze.rb:629-635 | the jobs of a category keep their order |
| `Report.EnterCategories` | source/scripts/analyze.rb:622-645 | a timestep gets the categories of the running list, and inside the window those of the pending list |
| `Report.AdvanceLists` | source/scripts/analyze.rb:664-667 | one step of the sweep takes the lists to those after the next timestep |
| `Report.InitCategories` | source/scripts/analyze.rb:616-654 | the whole pass leaves every timestep with its events and the categories of the lists after it, those of the pending list exactly inside the bounds given |
| `Report.PrintInOrder` | source/scripts/analyze.rb:658-704 | the printed rows are those of the timesteps inside the window, with the sizes of the lists and the gap to the row before |
| `Printout.RowsExactly` | source/scripts/analyze.rb:658-704 | the printed table has a row for a time exactly if a run is queued, requeued, started or ended then and the time is inside the bounds given |
| `Printout.RowsShow` | source/scripts/analyze.rb:669-703 | each row shows the numbers of runs pending and running at its time and of their categories, and the gap to the row before; rows come in the order of time |
| `Printout.RowsShowIntervals` | source/scripts/analyze.rb:664-667 | with runs in order these are the runs between queueing and start, and between start and end |
| `Report.SameElementsSameOrder` | source/scripts/analyze.rb:471-472 | sorting without duplicates determines the sequence of timesteps |
| `Report.PrintedAreaIsArea` | source/scripts/analyze.rb:669-685 | counts times printed deltas add up to the area under the counts when the window covers all timesteps |
| `Report.BoundsResolved` | source/scripts/analyze.rb:714-726 | an open bound of the window becomes the first or last timestep, which changes the window for no event; there is none exactly without records |
| `Report.Timetable` | source/scripts/analyze.rb:658-704 | building, categorising and printing the timestep table prints exactly the table of the records; without records and with an open bound the duration cannot be computed, and nothing is printed |
| `Report.Analyze` | source/scripts/analyze.rb:706-728 | reading, grouping and printing compose: the tables hold the chains and totals of the file, and the rows are printed unless there is no duration |
| `Report.PrintedPendingIsGroupTotal` | source/scripts/analyze.rb:658-704 | the pending area printed for a file equals the pending column of any of its group tables exactly when every run was queued before it started |
| `Report.PrintedRunningIsRuntime` | source/scripts/analyze.rb:658-704 | the same for the running area printed for a file |
| `Report.RerunMissing` | source/scripts/analyze.rb:638-645 | two lines of one task, the second starting where the first ended: the rerun is not counted as running |
| `OptionList.Options.Drain` | source/common/parse_job_cull.c:276-308 | a loop that handles and removes the first option of a switch folds its step over all options of the switch, in order, and leaves the rest |
| `OptionList.Options.Rename` | source/common/parse_job_cull.c:531-533 | the renaming loop gives every option of one switch another switch, in place |
| `OptionList.Options.TakeFirst` | source/common/parse_job_cull.c:174-181 | an `if` handles and removes the first occurrence only |
| `OptionList.Options.ClearUpTo` | source/common/parse_job_cull.c:241-264 | the inner walk ends, and removes exactly the dash switches before a -clear and the -clear itself |
| `OptionList.Options.Clear` | source/common/parse_job_cull.c:237-266 | the nested loops end, and leave what follows the last -clear and, in order, what before it does not start with a dash |
| `OptionList.ClearOnce` | source/common/parse_job_cull.c:237-266 | handling one -clear does not change what the last one will leave |
| `OptionList.PickOfDrop` | source/common/parse_job_cull.c:154-181 | removing options of some switches leaves the subsequences of the others |
| `OptionList.FoldConcat` | source/common/parse_job_cull.c:412-425 | folding over a list is folding over its first and then its second part |
| `OptionList.LastWins` | source/common/parse_job_cull.c:276-291 | a loop that overwrites leaves the last value, or the old one without an option |
| `JobParser.DrainNames` | source/common/parse_job_cull.c:371-395 | the names of all -hold_jid options replace the request list; without one it stays |
| `JobParser.ParseEarly` | source/common/parse_job_cull.c:148-230 | -b, -binding, -shell, -t and -tc are handled on the whole list before -clear is looked at, -binding and -t by their first occurrence |
| `JobParser.ParseContext` | source/common/parse_job_cull.c:524-600 | -V and -v are merged in their common order and compressed, -ac, -dc and -sc appended in theirs, and a relative directory without a known one gives up |
| `JobParser.ParseScripts` | source/common/parse_job_cull.c:606-632 | of the script pseudo-arguments the first one counts, all job arguments are appended |
| `JobParser.Complain` | source/common/parse_job_cull.c:634-645 | every option left on the list is reported once, in order |
| `JobParser.Parse` | source/common/parse_job_cull.c:107-665 | the whole parser: the outcome as a function of the list before and after -clear, and the options left over |
| `JobParser.RenamedContext` | source/common/parse_job_cull.c:531-535 | renaming hands the -v handler the options of -v and -V in order, and nothing changes for other handlers |
| `JobTheorems.HandlersSee` | source/common/parse_job_cull.c:237-266 | a handler after -clear sees the dash options behind the last -clear of the whole list, and every pseudo-argument |
| `JobTheorems.ReorderingKeepsJob` | source/common/parse_job_cull.c:276-632 | the job depends only on the subsequences of each early switch and pseudo-argument and on those behind the last -clear, -v with -V and -ac with -dc and -sc; nothing else about the order matters |
| `JobTheorems.ReportedOnce` | source/common/parse_job_cull.c:634-645 | for every switch, exactly which occurrences are reported as unknown: of a known one none, but all but the first of the script pseudo-arguments, of -t and -binding all behind the last -clear but the first of the list, and -help |
| `JobMeaning.LastValueWins` | source/common/parse_job_cull.c:276-316 | of -tc, -a, -A, -ar, -dl, -ckpt and -C the job has the last value behind the last -clear (-tc: of all), else its own |
| `JobMeaning.LastNameWins` | source/common/parse_job_cull.c:398-492 | the same for -j, -N, -notify, -p, -js, -P and -pe |
| `JobMeaning.LastSettingWins` | source/common/parse_job_cull.c:499-566 | the same for -R, -pty, -r, -verify and -w |
| `JobMeaning.JobTypeFlags` | source/common/parse_job_cull.c:154-222 | each flag of the job type is decided by the last -b, -shell or -now, or by any -t, and no other flag changes |
| `JobMeaning.MailOptions` | source/common/parse_job_cull.c:412-425 | the loop joins the options after the last "no mail", with the earlier ones if there is none |
| `JobMeaning.MailOfJob` | source/common/parse_job_cull.c:412-425 | the mail options of the built job are those of -m behind the last -clear and its last "no mail" |
| `JobMeaning.HardSoftLoop` | source/libs/sgeobj/cull_parse_util.c:1229-1251 | the hard and the soft list each grow by the lists of the options of their mode, in order |
| `JobMeaning.QueuesOfJob` | source/libs/sgeobj/cull_parse_util.c:1213-1259 | hard and soft queues of the built job are its own followed by those of the -q options behind the last -clear, by mode |
| `JobMeaning.ResourcesOfJob` | source/common/parse_job_cull.c:406-410 | each resource is requested at most once per mode, with its last value among the job's own and the -l options behind the last -clear |
| `JobMeaning.AppendLoop` | source/libs/sgeobj/cull_parse_util.c:1290-1306 | appending switches concatenate their lists in order |
| `JobMeaning.ContextOfJob` | source/common/parse_job_cull.c:537-556 | the context is the job's own followed by those of -ac, -dc and -sc behind the last -clear in their common order |
| `JobMeaning.CheckpointLoop` | source/common/parse_job_cull.c:298-305 | the interval comes from the last -c with one, the occasions from the last -c with occasions |
| `JobMeaning.WdLoop` | source/common/parse_job_cull.c:568-598 | the last -wd or -cwd decides, and parsing is given up exactly if one without path meets an unknown directory |
| `JobMeaning.HoldLoop` | source/common/parse_job_cull.c:349-356 | one user hold moves the unheld tasks to the user hold list, a second one empties it |
| `JobMeaning.TasksStayListed` | source/common/parse_job_cull.c:349-356 | the tasks of the built job are on exactly one hold list exactly when at most one user hold is given behind the last -clear |
| `JobMeaning.SecondHoldLosesTasks` | source/common/parse_job_cull.c:349-356 | -h given twice takes the tasks of any job off both lists |
| `JobFields.ArgumentsOfJob` | source/common/parse_job_cull.c:622-632 | the job has its own arguments followed by all job arguments, in order |
| `JobFields.ScriptOfJob` | source/common/parse_job_cull.c:606-619 | script, length and text are those of the first pseudo-argument, else the job's own |
| `JobFields.NamesOfJob` | source/common/parse_job_cull.c:647-664 | a job without a script reads it from STDIN, unless it is binary, which is the last complaint; a job without a name has the base name of its script |
| `JobFields.BasenameExactly` | source/libs/uti/sge_string.c:76-101 | a base name is what stands behind the last slash, if that is not empty |
| `JobFields.NoBasename` | source/libs/uti/sge_string.c:76-101 | there is none exactly for an empty path or a slash at the end |
| `JobFields.TasksOfJob` | source/common/parse_job_cull.c:174-224 | the tasks are those of the first -t of the list, else number 1 in place of the first range; the binding is that of the first -binding |
| `JobFields.CheckpointOfJob` | source/common/parse_job_cull.c:298-305 | the interval of the job is that of the last -c with one behind the last -clear, the occasions those of the last with occasions |
| `JobFields.DirectoryOfJob` | source/common/parse_job_cull.c:568-598 | the directory of the job is that of the last -wd or -cwd behind the last -clear; it is missed exactly if any of them needs an unknown current directory, looked up with the variables of the job |
| `JobFields.GivenUpExactly` | source/common/parse_job_cull.c:107-665 | parsing is given up for a first -t without tasks, else for a -help behind the last -clear, else for a missing directory, and for nothing else |
| `JobLists.PathsOfJob` | source/common/parse_job_cull.c:346-519 | for each host, and for paths and shells given without one, the last path of -e, -o and -i and the last shell of -S count, exactly unless the list taken over names the host twice |
| `JobLists.RecipientsOfJob` | source/common/parse_job_cull.c:427-435 | mail goes to the submitting user exactly if neither the job nor a -M names anybody; else to exactly those named who have no later recipient of their host, or are the last, or stand behind another of their host in the list taken over |
| `JobLists.MergedHolds` | source/libs/sgeobj/cull_parse_util.c:392-515 | exactly which definitions a merged list holds |
| `JobLists.EverybodyStays` | source/common/parse_job_cull.c:427 | everybody named stays a recipient exactly if all outlive the merge; where the list taken over has no host twice, exactly if no two of the same host differ |
| `JobLists.OnlyLastRecipient` | source/common/parse_job_cull.c:427 | -M alice -M bob leaves bob alone |
| `JobLists.PredecessorsOfJob` | source/common/parse_job_cull.c:371-395 | the jobs to wait for are one for each item named behind the last -clear, in order and by name only, or the job's own if there is no option; -hold_jid_ad likewise |
| `JobLists.AppendedOfJob` | source/common/parse_job_cull.c:403-526 | job numbers, users and master queues are the job's own followed by all behind the last -clear, and -masterq is always hard |
| `JobDefinitions.DefineOne` | source/libs/sgeobj/cull_parse_util.c:392-515 | merging one definition changes the first definition of its key, so the last value of a key defined twice stays |
| `JobDefinitions.MergeMany` | source/libs/sgeobj/cull_parse_util.c:355-521 | after merging, a key has its last merged value unless the list merged into defined it twice |
| `JobDefinitions.MergeLoop` | source/libs/sgeobj/cull_parse_util.c:1290-1323 | folding lists is taking over the first one and merging all later ones into it |
| `JobDefinitions.CompressKeepsLast` | source/libs/sgeobj/cull_parse_util.c:542-640 | compressing leaves one definition of each key, with its last value |
| `JobDefinitions.LastDefinitionWins` | source/common/parse_job_cull.c:531-535 | a variable is defined at most once in the built job, and has its last definition exactly unless the list taken over defines it twice and a later one differs |
| `JobDefinitions.DoubledVariableStays` | source/libs/sgeobj/cull_parse_util.c:355-521 | -v x=1,x=2 -v x=3 leaves x=2 |
| `ScriptFile.LinesPartition` | source/common/parse_job_cull.c:821-873 | the lines of a file, each with its newline, make up the file |
| `ScriptFile.StripLine` | source/common/parse_job_cull.c:878-926 | comment lines, prefix, leading space, trailing comment and space are stripped as specified |
| `ScriptFile.DirectivesExactly` | source/common/parse_job_cull.c:890-926 | with a prefix, a line yields parameters exactly if it is prefix, space, those parameters, space and a comment |
| `ScriptFile.DefaultsExactly` | source/common/parse_job_cull.c:885-926 | without a prefix, a line yields parameters exactly if it consists of them, trailing space and a comment |
| `ScriptFile.ReadDirectives` | source/common/parse_job_cull.c:821-994 | the loop walks the whole text line by line, nt_index being what is left, and reads as specified |
| `ScriptFile.ReadIsConcatenation` | source/common/parse_job_cull.c:928-989 | without an error the options are those of the directives, in order, without any -C |
| `ScriptFile.WordlessLines` | source/common/parse_job_cull.c:903-938 | whatever the parser, reading meets a directive without words exactly in a file read without prefix, at a line of blanks, at least one, before its comment or end, all lines before it being read without an error |
| `ScriptFile.NoWordsExactly` | source/common/parse_job_cull.c:821-938 | the same for the lines of any text |
| `ScriptFile.BlankLineHasNoWords` | source/common/parse_job_cull.c:938-940 | a defaults file of one blank and a newline is such a file |
| `EmbeddedOptions.ParseDirective` | source/common/parse_job_cull.c:928-989 | the command line tokenizer, at its program and without pseudo-arguments, is the parser the file reader calls for each directive |
| `EmbeddedOptions.ReadToEnd` | source/common/parse_job_cull.c:952-982 | with it, a file is read to its end exactly if every directive has words and none of them a fault |
| `EmbeddedOptions.RefusedExactly` | source/common/parse_job_cull.c:952-982 | a file is refused for the first directive that is not readable, and its fault is all that is remarked |
| `EmbeddedOptions.TextIsTokenized` | source/common/parse_job_cull.c:928-989 | such a file yields what the tokenizer makes of each directive, in order, without any -C |
| `ScriptFile.CommandLine.ParseScriptFile` | source/common/parse_job_cull.c:733-1034 | all error cases leave the command line alone; otherwise the file's options and pseudo-arguments are put in front or behind according to FLG_LOWER_PRIOR |
| `ScriptFile.PseudoArgsExactly` | source/common/parse_job_cull.c:997-1015 | the script is named unless it shall not be or is, STDIN for the input; length and text follow, the text up to its first zero |
| `ScriptFile.UnavailableExactly` | source/common/parse_job_cull.c:776-805 | exactly which complaint there is about a script that cannot be had |
| `ScriptFile.EmbeddedExactly` | source/common/parse_job_cull.c:808-821 | options are read from the content up to its first zero exactly if there is one, with a prefix, and they are not ignored |
| `ScriptFile.TailOfBoth` | source/common/parse_job_cull.c:1022-1032 | what remains behind the last -clear of two joined lists |
| `ScriptFile.SecondListWins` | source/common/parse_job_cull.c:1022-1032 | of two joined lists an overwriting switch uses the second's last value, else, unless the second has a -clear, the first's, else the old one |
| `ScriptFile.EarlySwitchesSeeBoth` | source/common/parse_job_cull.c:154-230 | switches handled before -clear use the second list's last option, else the first's, whatever -clear says |
| `Tokenizer.ParseBlock` | source/common/parse_qsub.c:134-1925 | at the cursor, a switch takes its arguments or fails with the fault specified for it |
| `Tokenizer.ParseCommandLine` | source/common/parse_qsub.c:108-2041 | the loop appends the options of all blocks up to the end or the first fault, and the default hold if none was given |
| `Tokenizer.StepTakesArity` | source/common/parse_qsub.c:134-2026 | a switch takes itself and exactly the arguments of its arity |
| `Tokenizer.BlocksCover` | source/common/parse_qsub.c:134-2026 | the blocks are consecutive, and are the whole command line exactly when there is no fault |
| `Tokenizer.BlockIsStep` | source/common/parse_qsub.c:134-2026 | each block is read from what remains, has its first argument and its arity, and sees the register of the last -hard or -soft before it |
| `Tokenizer.RequestsCarryRegister` | source/common/parse_qsub.c:994-1020 | each -l and -q has one option with its argument, and 0, 1 or 2 by the last -hard or -soft block before it |
| `Tokenizer.BlockHasItsOption` | source/common/parse_qsub.c:134-1902 | every flag, valued and yes-or-no switch has one option: of that switch, with its argument as text, and numbered by the answer |
| `Switches.KindIsSpelled` | source/common/parse_qsub.c:134-2026 | every string is read as what it spells: a switch only from its own string, in its own way, -cwd as the flag form of -wd |
| `Switches.KnownIsTaken` | source/common/parse_qsub.c:134-2026 | every switch of the job parser but -jid is read from its string, for qalter all but -b and -shell, too |
| `Switches.NamesDiffer` | source/common/parse_qsub.c:134-2026 | no two of them have the same string |
| `Switches.SpecialBlock` | source/common/parse_qsub.c:744-770 | what -h, -pe, -binding, -V and -@ take and make of it |
| `Switches.PlainBlock` | source/common/parse_qsub.c:1995-2003 | the first argument without a dash is the script, and all behind it are arguments of the job, in order |
| `Switches.JobsBlock` | source/common/parse_qsub.c:2004-2018 | for qalter it is a list of jobs |
| `Switches.SeparatorBlock` | source/common/parse_qsub.c:1961-1980 | all behind -- are arguments of the job, in order |
| `Switches.DefaultHolds` | source/common/parse_qsub.c:2028-2038 | without a -h, qhold gives a user hold and qrls removes one |
| `Switches.AnswersExactly` | source/common/parse_qsub.c:2154-2177 | yes is y or yes and no is n or no, in any case, and nothing else is an answer |
| `Switches.FaultIsFound` | source/common/parse_qsub.c:134-2026 | a command line is only refused for what stands behind its blocks: an unknown option, a missing argument, or one that its parser refuses |
| `Switches.DashesAreSwitches` | source/common/parse_qsub.c:1920-2026 | nothing that starts with a dash, -- aside, is taken for a script, job or operand |
| `Tokenizer.LoneDashIsRefused` | source/common/parse_qsub.c:1920-1927 | no block of any command line starts with a lone dash, and one in front is an invalid option, in every mode |
| `Submission.SwitchesAreGenuine` | source/common/parse_qsub.c:134-2026 | no option is given a switch string of the job parser in the place of its known switch, so `Other` switches are those the parser does not know |
| `Submission.OptionsOfSwitch` | source/common/parse_qsub.c:134-2026 | the options of a known switch are those of the blocks that start with its string, in order |
| `Submission.OptionsOnLine` | source/common/parse_job_cull.c:237-266 | what a handler sees of a command line: the blocks that start with its switch behind the last -clear, or all of them before -clear is handled, and for -h the default hold |
| `Submission.TailOfBlocks` | source/common/parse_job_cull.c:237-266 | behind the last -clear on the list stand exactly the options of the blocks behind the last -clear on the command line |
| `Submission.RequestsOnCommandLine` | source/common/parse_qsub.c:994-1020 | the -q and -l options behind the last -clear, by mode, are those of the blocks that start with -q or -l behind the last that starts with -clear, by the last that starts with -hard or -soft before them |
| `Submission.RequestsOfJob` | source/common/parse_job_cull.c:406-498 | of a command line without a fault: the hard and soft queues of the job are its own and those of the -q blocks behind the last -clear, soft exactly where the last -hard or -soft before is -soft; resources likewise by their last value |
| `Submission.Submit` | source/common/parse_qsub.c:108-2041 | the tokenizer and the job parser compose: a fault ends it, else the outcome is that of the options read, with these queues |
| `Submission.SoftOutlivesClear` | source/common/parse_qsub.c:447-456 | on -soft -clear -q x the queues are soft |
| `Sealing.Buffer.Append` | source/utilbin/sge_passwd.c:422-441 | appending is concatenation: the bytes before stay, the new ones follow, all others are zero, and the capacity grows as needed |
| `Sealing.GrownEnough` | source/utilbin/sge_passwd.c:422-441 | a buffer has room for what is appended, at least 512 bytes, and does not grow if it had |
| `Sealing.CryptConcat` | source/utilbin/sge_passwd.c:611-622 | encrypting piecewise is encrypting the whole |
| `Sealing.CryptTwice` | source/utilbin/sge_passwd.c:728-756 | encrypting twice from the same state gives the text back |
| `Sealing.CryptAt` | source/utilbin/sge_passwd.c:611-622 | each byte is mixed with that of the state the cipher has reached |
| `Sealing.Encrypt` | source/utilbin/sge_passwd.c:594-626 | the buffer gets key length in network order, key, initial vector and encrypted text; behind the key length the program reads past a key that is shorter |
| `Sealing.ReadsPastKey` | source/utilbin/sge_passwd.c:594-605 | that is exactly a key shorter than the length reported, or than 128 bytes where that length is 0 or above 10000 |
| `Sealing.DecryptText` | source/utilbin/sge_passwd.c:728-757 | decrypting in chunks of 512 bytes appends the decryption of the whole |
| `Sealing.Decrypt` | source/utilbin/sge_passwd.c:664-787 | of any frame, the one whose key length is that of the private key and that has room for key and vector is opened and its text appended; one that is too short is where the program reads past it |
| `Sealing.LengthLeftExactly` | source/utilbin/sge_passwd.c:666-728 | the unsigned length that is left after key length, key and vector ends the text at the end of the frame exactly if the frame has room for them; else it wraps, and ends it an address space behind |
| `Sealing.SealThenOpen` | source/utilbin/sge_passwd.c:594-626 | opening a sealed text gives it back exactly if the length written is that of the private key |
| `Sealing.FrameLayout` | source/utilbin/sge_passwd.c:598-622 | where length, key, vector and text stand in a frame, the length highest byte first |
| `Bytes.XorTwice` | source/utilbin/sge_passwd.c:611-622 | mixing in the same byte twice changes nothing |
| `Bytes.XorAt` | source/utilbin/sge_passwd.c:611-622 | a bit of the result is set exactly if the two bits differ |
| `Bytes.NetRoundTrip` | source/utilbin/sge_passwd.c:598-602 | a number in network order reads back as itself |
| `HexCode.EncodeHex` | source/utilbin/sge_passwd.c:805-838 | the array gets the terminated string of two digits for each byte |
| `HexCode.EncodedAt` | source/utilbin/sge_passwd.c:805-838 | a byte is written as its high and its low digit, in lower case |
| `HexCode.DecodeHex` | source/utilbin/sge_passwd.c:840-864 | the array gets the bytes scanned from all pairs, and a length of half the string |
| `HexCode.DecodeEncoded` | source/utilbin/sge_passwd.c:805-864 | decoding undoes encoding |
| `HexCode.EncodeDecoded` | source/utilbin/sge_passwd.c:805-864 | encoding undoes decoding exactly for an even number of lower-case digits |
| `HexCode.UpperCaseToo` | source/utilbin/sge_passwd.c:840-864 | digits in upper case are read as in lower case |
| `PasswordTable.Table.FindEntry` | source/libs/uti/sge_uidgid.c:1991-2005 | the search returns the first entry of the user, or -1 |
| `PasswordTable.Table.AddOrReplace` | source/utilbin/sge_passwd.c:910-931 | every entry of the user is changed, or one is added behind the last |
| `PasswordTable.Table.WriteFile` | source/utilbin/sge_passwd.c:868-883 | the file has a line for each entry with a name |
| `PasswordTable.Delete` | source/utilbin/sge_passwd.c:933-972 | the first entry of the user is blanked and the file written |
| `PasswordTable.SealedAfterChange` | source/utilbin/sge_passwd.c:910-931 | after a change the user's password is the new one, and everybody else's is as before |
| `PasswordTable.SealedAfterDelete` | source/utilbin/sge_passwd.c:962-971 | after a deletion the file has no password for the user exactly if there was at most one entry, and the others keep theirs |
| `PasswordTable.SecondEntryStays` | source/utilbin/sge_passwd.c:962-971 | of two entries of a user the second survives a deletion |
| `PasswordTable.AuthoriseChange` | source/utilbin/sge_passwd.c:1085-1133 | everybody but root has to type the stored password, decoded and decrypted, if there is one; a frame that is too short is read past |
| `PasswordTable.AuthorisedExactly` | source/utilbin/sge_passwd.c:1085-1133 | root and users without an entry are allowed; an interrupted prompt aborts; else the first entry's frame must be long enough and sealed for the key, and its text be what was typed |
| `PasswordTable.Change` | source/utilbin/sge_passwd.c:1048-1200 | changed exactly if authorised, both new passwords are typed, the same and not empty, and the key has its length; each refusal has its exit, in this order; only a successful change touches table and file |
| `PasswordTable.OnlyNewPasswordMatches` | source/utilbin/sge_passwd.c:1085-1190 | after a change, the new password and no other lets its owner in, through encryption, hex coding and the table |
| `CommErrors.CommunicationError.HandleTimeout` | source/common/sge_ijs_comm.c:97-122 | time, counter and verdict after an error, with unsigned differences |
| `CommErrors.CommunicationError.Report` | source/common/sge_ijs_comm.c:124-235 | the record follows the history of errors; an error is logged unless it was already, or is the last one logged |
| `CommErrors.FlagMeansLongBurst` | source/common/sge_ijs_comm.c:97-163 | the flag is set exactly if some burst, with gaps of at most three read timeouts and no clock step back, spans two read timeouts; until then the counter is the burst's length plus one |
| `CommErrors.ErrorsAreSticky` | source/common/sge_ijs_comm.c:145-163 | an application error stays one whatever is reported later |
| `CommErrors.CommunicationError.ApplicationError` | source/common/sge_ijs_comm.c:237-258 | access denied comes before endpoint not unique, each exactly when its errors had a long burst |
| `CommWaits.PollingEnds` | source/common/sge_ijs_comm.c:867-880 | polling for at most 2147 seconds always ends, and pauses for no more than these |
| `CommWaits.EndsExactly` | source/common/sge_ijs_comm.c:867-880 | polling ends exactly if some round has no reason to pause or is interrupted, with the first such round, and in one way only |
| `CommWaits.RoundsExactly` | source/common/sge_ijs_comm.c:867-876 | which rounds go on: in time, not interrupted, with nobody connected, or somebody left, and without the errors that count |
| `CommWaits.TimeRunsOutExactly` | source/common/sge_ijs_comm.c:847-876 | the time runs out exactly if at most 2147 seconds are to be waited, after a hundred pauses for each; else the counter overflows before |
| `CommWaits.LongWaitNeverEnds` | source/common/sge_ijs_comm.c:867-880 | a wait of 2148 seconds for a client that never comes does not end |
| `CommWaits.InterruptedExactly` | source/common/sge_ijs_comm.c:867-880 | polling is interrupted exactly if some round is, and it and all before it have reason to pause |
| `CommWaits.WaitForConnection` | source/common/sge_ijs_comm.c:841-911 | whenever polling ends, result and host are those of the way it does, timeout before failed trigger before failed search |
| `CommWaits.ConnectedUnlessInterrupted` | source/common/sge_ijs_comm.c:867-905 | after success a client was seen exactly unless, in what the rounds find, an interrupt comes before a round that ends polling, or that round has no list |
| `CommWaits.SuccessWithoutClient` | source/common/sge_ijs_comm.c:874-880 | an input for which waiting succeeds without a client |
| `CommWaits.WaitForNoConnection` | source/common/sge_ijs_comm.c:950-1021 | whenever polling ends, the result of the way it does, failed search before failed trigger before timeout |
| `CommWaits.ResultsExactly` | source/common/sge_ijs_comm.c:881-895 | what each result of the two waits says of the time, the last trigger and the last search, each in its order |
| `CommWaits.GoneUnlessInterrupted` | source/common/sge_ijs_comm.c:970-1014 | after success no client is left exactly unless an interrupt comes in a round that pauses after rounds that all pause |
| `CommWaits.SuccessWithClient` | source/common/sge_ijs_comm.c:970-1014 | an input for which waiting for no client succeeds with one left |
| `CommWaits.Flush` | source/common/sge_ijs_comm.c:1261-1297 | flushing returns minus the number of retries until the queue was empty, or the fatal error |
| `CommWaits.FatalExactly` | source/common/sge_ijs_comm.c:1261-1297 | all but success, timeout and interrupt of waiting for the network end flushing |
| `CommWaits.FlushEndsExactly` | source/common/sge_ijs_comm.c:1261-1297 | flushing never ends exactly if there is something to send and no round brings a fatal error or an empty queue |
| `Escapes.OutputParsing` | source/utilbin/infotext.c:517-549 | newlines and quotes are escaped, all else is copied |
| `Escapes.EscapedIsOneLine` | source/utilbin/infotext.c:517-549 | an escaped text is on one line, and its quotes stand behind backslashes |
| `Escapes.InputParsing` | source/utilbin/infotext.c:458-515 | the loop over neighbouring characters unescapes as specified, dropping a last character behind an escape |
| `Escapes.UnescapesTo` | source/utilbin/infotext.c:458-515 | which character each escape stands for, and that all else is copied |
| `Escapes.RoundTrip` | source/utilbin/infotext.c:458-549 | without a false escape a text comes back, but for a last ordinary character behind a newline or quote |
| `Escapes.RoundTripExactly` | source/utilbin/infotext.c:458-549 | a text survives escaping and unescaping exactly if no backslash precedes n, r or t and its last character is not lost |
| `Escapes.TextsThatChange` | source/utilbin/infotext.c:458-549 | a text that loses its last character, and one whose backslash becomes part of a newline |
| `Escapes.MakeLineBreak` | source/utilbin/infotext.c:100-142 | the buffer is the quoted chunks of the text |
| `Escapes.BufferIsQuotedLines` | source/utilbin/infotext.c:100-142 | the buffer has a line for each chunk, in quotes |
| `Escapes.ChunksAreBrokenOnlyThere` | source/utilbin/infotext.c:118-129 | a line is broken only behind an escaped newline, or in front of a space when it has more than 80 columns |
| `Escapes.ChunksAreText` | source/utilbin/infotext.c:116-138 | the chunks make up the text |
| `Escapes.ChunksAreWithinLimits` | source/utilbin/infotext.c:118-129 | no chunk has a space past column 81 or anything behind an escaped newline |
| `WordWrap.GetNextWord` | source/utilbin/infotext.c:190-246 | the next word of a text |
| `WordWrap.FoundWhereTaken` | source/utilbin/infotext.c:312-317 | searching for the next word finds it where it was taken from |
| `WordWrap.WordsKeepText` | source/utilbin/infotext.c:289-379 | the words have every character of the text but spaces, newlines included, in order |
| `WordWrap.FormatOutput` | source/utilbin/infotext.c:248-390 | the loop ends, and prints the words wrapped into lines |
| `WordWrap.LinesKeepWords` | source/utilbin/infotext.c:289-379 | the lines have all words in order |
| `WordWrap.WrappingKeepsText` | source/utilbin/infotext.c:248-390 | the lines handed to printing have exactly the characters of the dash, if any line is printed, and of the text, newlines included and spaces aside; only an empty text or a single space prints nothing |
| `WordWrap.OutputKeepsText` | source/utilbin/infotext.c:248-455 | the printed output has only more newlines |
| `WordWrap.SpacingIsKept` | source/utilbin/infotext.c:190-379 | without newlines the words, set apart as on a line, are the text again, spaces included, but for a single leading one |
| `WordWrap.LinesOfText` | source/utilbin/infotext.c:320-379 | the first line has the dash in front, the others as many spaces; a line longer than a non-negative maximum has one word, a line is filled as far as the next word allows, and exactly which lines have a newline printed behind them |
| `WordWrap.NewlinesEndLines` | source/utilbin/infotext.c:320-358 | a newline stands in a line only as its last character, if the dash has none |
| `WordWrap.PrintLine` | source/utilbin/infotext.c:393-455 | a line is printed with a newline unless it is quiet or has no column |
| `Permutations.Range.CountAll` | source/utilbin/permutation.c:131-163 | there are (cmax - cmin + 1) to the n texts |
| `Permutations.Range.AllIsComplete` | source/utilbin/permutation.c:131-163 | the texts put into the buffer are exactly those of length n over the range |
| `Permutations.Range.AllIsOrdered` | source/utilbin/permutation.c:131-163 | they come in strictly increasing lexicographic order |
| `Permutations.Range.NoneTwice` | source/utilbin/permutation.c:131-163 | no text is put into the buffer twice |
| `Permutations.Range.PrintedWhole` | source/utilbin/permutation.c:161 | the texts are printed whole, and so in this order and once each, exactly if the range does not contain the zero character |
| `Permutations.Range.PrintedLines` | source/utilbin/permutation.c:161 | the lines printed are exactly the texts over the range without a zero, of length n, or also shorter if the range contains it |
| `Permutations.Range.NoLineTwice` | source/utilbin/permutation.c:161 | no line is printed twice exactly if the range does not contain the zero character, or n is 1, or the range has one character |
| `Permutations.EmptyLines` | source/utilbin/permutation.c:161 | from -1 to 1 with two characters, two texts are printed as the empty line, and one as a shorter text |
| `Permutations.Range.CountingEndsExactly` | source/utilbin/permutation.c:153 | counting up a character gets past the end of the range exactly if that is not the largest character |
| `Permutations.CountingStartsOver` | source/utilbin/permutation.c:153 | the range from a to the largest character is never left |
| `Permutations.Enumerator.Permutation` | source/utilbin/permutation.c:131-163 | the recursion over the shared buffer prints the buffer as a terminated string for each of them behind the prefix it finds, and restores the index |
| `GepMatrix.Matrix.Add` | gep/glue/GEPServlet.java:2282-2306 | a line adds its wall time to the cell of its owner and account; a new owner gets a row |
| `GepMatrix.Tabulate` | gep/glue/GEPServlet.java:2267-2306 | every cell is the wall time of the lines of its owner and column, the last column taking the accounts not listed |
| `GepMatrix.ColumnExactly` | gep/glue/GEPServlet.java:2295-2298 | a listed account has the first column of its name, all others the last column |
| `GepMatrix.OwnersGrow` | gep/glue/GEPServlet.java:2289-2293 | later lines only add owners behind those there are |
| `GepMatrix.OwnersDistinct` | gep/glue/GEPServlet.java:2289-2293 | no owner has two rows, and the owners of jobs are exactly those with one |
| `GepMatrix.NothingIsLost` | gep/glue/GEPServlet.java:2282-2306 | all cells together are the wall time of all lines |
| `GepMatrix.UpdateProjectList` | gep/glue/GEPServlet.java:370-383 | adding, deleting and updating a project line; deleting and updating fail exactly if some line has no token |
| `GepMatrix.EditOfName` | gep/glue/GEPServlet.java:370-383 | after an edit every other name keeps its lines, the edited one has none of its old ones unless one was added, and the new line belongs to the name read off it |
| `GepMatrix.LineOfName` | gep/glue/GEPServlet.java:372-382 | the line added for a name is found under it exactly if the name is not empty and has no tab |
| `GepMatrix.UpdateIsDeleteAndAdd` | gep/glue/GEPServlet.java:370-383 | updating is deleting and adding again, failures included |
| `GepMatrix.EmptyLineThrows` | gep/glue/GEPServlet.java:370-376 | with an empty line in the list a project can be added but neither changed nor deleted |

## Left out

- Splitting accounting lines into fields, and all printing, averages and formatting of the analyser: text only.
- Ruby's hash order is any order of the keys; the sweep is proved for every order.
- Parsers of single argument values (dates, ranges, resource, path, mail and job lists, binding) are functions of their
  argument; their bodies are not part of this model.
- `Submission` is about one command line; the options of defaults files and of the script are joined to it as
  `ScriptFile` describes, each list with a mode of its own.
- Path aliases, the current directory and the submitting user and host are inputs of the job parser; -jsv registration
  and the initial environment of a job are not modelled.
- When the job parser gives up early, the half-filled job is not described.
- An option list that is NULL and one that is empty are the same in `ScriptFile`.
- Splitting a directive line into words and stripping quotes is an arbitrary function in `EmbeddedOptions`.
- `Tokenizer` treats -@ as an argument that names a file with known options; its recursion through files, which may be
  cyclic, is not modelled, nor are the warnings about repeated switches.
- OpenSSL is an arbitrary stream cipher with a key pair; failing OpenSSL calls, key files and prompts are left out.
- Reading the password file back is not part of this model.
- HexCode.Scanned: models scanf for two characters in the C locale only.
- The mutex of the error record, message texts and the cl_err_type of a log entry are left out.
- CommWaits.WaitForNoConnection: describes waits that end; which do is `CommWaits.EndsExactly`.
- CommWaits.Flush: describes flushing that ends; that it does not end for other inputs is
  `CommWaits.FlushEndsExactly`.
- Permutations.Enumerator.Permutation: describes ranges that end below the largest character; for others the loop does
  not end, which is `Permutations.Range.CountingEndsExactly`.
- CommWaits.WaitForConnection: describes waits that end, and does not include the final call of
  comm_get_application_error, which is `CommErrors.CommunicationError.ApplicationError`.
- Message framing and the other functions of sge_ijs_comm.c are thin wrappers around the communication library.
- Underlining, the NOMSG switch and the output stream of infotext.c are printing only.
- Sleeping, forking and the silent option of the enumerator; the terminating newline of each text.
- Comment lines aside, malformed accounting lines of the servlet end its loop with an exception; only lines with all
  fields are modelled. The rest of the servlet is user interface.
- Machine overflow is modelled where a result depends on it (unsigned job fields, clock differences, lengths against a
  negative maximum); counters and sums are unbounded.
