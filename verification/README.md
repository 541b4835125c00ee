# Launch and probe layer: a verified model

A Dafny model of the Windows launch and probe code written in C#, with proofs of what that code is for.
The operating system is an environment that may do anything its rules allow: a process is created,
resumed by an event of its own, and exits once; a job has live members; a pipe is a queue of bytes with writers that
come to an end; time only passes; any call may fail. What is proved holds for every such run.

| modules | subject |
|---|---|
| `CommandLine`, `Options` | two command-line escapers, the line builder and the option reader, against the reader of the C runtime ("Parsing C command-line arguments": 2n and 2n+1 backslashes before a quote, blanks, a special program name) |
| `PeBytes`, `PeSections`, `PeParser`, `PeLayout` | the PE parser: checked offsets, address mapping, import walk, search; and the PE format printed by its own field names |
| `LaunchWorld` | processes, jobs, pipes and the clock, as the launchers see them, with what each call told them |
| `DefenderPipe`, `DefenderControl`, `DefenderRecord`, `DefenderJson`, `Base64` | the collection of one backend run, its result record, and the controller that reads it |
| `SyntheticPipe`, `SyntheticLaunch` | the synthetic launch cases, their poll loop, cleanup and verdict |
| `Framing` | line frames, the first line of a pipe, the one-shot challenge |
| `Paths`, `TreeDelete` | path containment, private leaf names, the two-level delete |
| `EnvironmentMask`, `EnvironmentWorker`, `EnvironmentPolicy`, `EnvironmentReport`, `EnvironmentBlock` | the environment block, the child that checks it, and its 13-bit report |
| `LedgerCases`, `ProbeFacts`, `ProbeSuite` | the write-once ledger of mandatory cases over phases that can throw anywhere, and what each case says of the platform |
| `AccessList`, `Workspace` | directory handles and the private access list of a workspace |

`dafny verify dfyconfig.toml` checks everything. Code that changes state step by step is modelled by
classes and methods with the same loops; each is proved against a specification function or predicate,
and the properties are lemmas about those.

Where code and intention differ, the model follows the code:

- a program name survives the line builder exactly under `CommandLine.ProgramSurvives`; a trailing
  backslash in a quoted name, or a quote, loses it; the arguments behind it survive exactly under
  `CommandLine.ArgumentsSurvive`, which a name with a quote may fail;
- the worker's report is decoded faithfully for environments without null or repeated names; for all
  others the decoding claims everything but the allow-list, so a field is right exactly when the fact
  holds anyway (`EnvironmentReport.ReportIsFaithfulExactly`, `EnvironmentReport.RepeatedNameMisreports`);
- the workspace check can never accept when the user is itself one of the two well-known principals;
- an early return in the tree case leaves two ledger cases to be blocked although nothing threw.

## Model

| member | source | states |
|---|---|---|
| `CommandLine.QuoteArgument` | tools/compatibility/trust-launch/TrustLaunchProbe.cs:122-158 | The escaper prints the specified form of any NUL-free value and refuses a NUL; its slash counter is a loop invariant. |
| `CommandLine.Quote` | tools/backend/defender-control/DefenderControl.cs:256-265 | The second escaper, with its two flushes folded into one, always prints the quoted form. |
| `CommandLine.BuildCommandLine` | tools/compatibility/trust-launch/TrustLaunchProbe.cs:160-173 | The line is the printed program and arguments in order; it is refused exactly for a NUL anywhere or from 32767 characters on. |
| `CommandLine.ScanPrinted` | tools/compatibility/trust-launch/TrustLaunchProbe.cs:122-158 | The reader of the C runtime takes any printed value back, whatever mix of backslashes, quotes and blanks, and stops where it ends. |
| `CommandLine.PrintedAsItself` | tools/compatibility/trust-launch/TrustLaunchProbe.cs:128-131 | A value is left as it is if and only if it is not empty and has no blank and no quote; any other one becomes at least two characters longer. |
| `CommandLine.PrintersAgree` | tools/backend/defender-control/DefenderControl.cs:256-265 | Both escapers are read back as the same single argument, for every value. |
| `CommandLine.ArgumentsRoundTrip` | tools/compatibility/trust-launch/TrustLaunchProbe.cs:160-173 | Every argument list comes back if and only if the program name is plain, or each blank in it lies inside its quotes and they are balanced; a name without quotes always qualifies. |
| `CommandLine.ArgumentsComeBack` | tools/compatibility/trust-launch/TrustLaunchProbe.cs:160-173 | Behind such a name parsing gives exactly the arguments back, empty ones included. |
| `CommandLine.ArgumentsAreLost` | tools/compatibility/trust-launch/TrustLaunchProbe.cs:160-173 | Behind any other name the empty list or one plain word is not read back. |
| `CommandLine.WholeLineComesBack` | tools/compatibility/trust-launch/TrustLaunchProbe.cs:160-173 | With no quote in the name the whole line is read back, the name as the reader sees it. |
| `CommandLine.ProgramRoundTrip` | tools/compatibility/trust-launch/TrustLaunchProbe.cs:160-173 | The program name comes back if and only if the stated condition on quotes and trailing backslashes holds. |
| `CommandLine.ScanBareLine` | tools/backend/defender-control/DefenderControl.cs:318 | A line of plain words and one escaped query reads as those words and that query. |
| `CommandLine.BackendCommandParses` | tools/backend/defender-control/DefenderControl.cs:318 | The launched backend receives its fixed words and then exactly the query, for any query. |
| `Options.ParseOptions` | tools/compatibility/trust-launch/TrustLaunchProbe.cs:76-98 | The option loop computes the reading of the words from `start` on, with each of its error codes. |
| `Options.ReadOptionsExact` | tools/compatibility/trust-launch/TrustLaunchProbe.cs:76-98 | Accepted are exactly the even lists of distinct `--` names with NUL-free values, and the dictionary is exactly those pairs. |
| `Options.Append` | tools/compatibility/trust-launch/TrustLaunchProbe.cs:3687-3694 | Appending prints one more word after a blank, or alone. |
| `Options.RaceArguments` | tools/compatibility/trust-launch/TrustLaunchProbe.cs:3630-3647 | The worker string is the four or five words in order, or the refusal of a NUL. |
| `Options.ScanJoined` | tools/compatibility/trust-launch/TrustLaunchProbe.cs:3687-3694 | Joined words read back as the same words. |
| `Options.RaceOptionsSurvive` | tools/compatibility/trust-launch/TrustLaunchProbe.cs:3630-3647 | For every operation, scope, target and replacement, what the worker parses is exactly the dictionary that was sent. |
| `PeBytes.CheckedOffset` | tools/compatibility/trust-launch/TrustLaunchProbe.cs:2595-2603 | Accepted if and only if the whole range lies in the file; never overflows. |
| `PeBytes.ReadU16` | tools/compatibility/trust-launch/TrustLaunchProbe.cs:2582-2586 | In range the value is the little-endian one, otherwise a rejection. |
| `PeBytes.ReadU32` | tools/compatibility/trust-launch/TrustLaunchProbe.cs:2588-2593 | The shifted bytes equal the little-endian value; out of range is rejected. |
| `PeSections.RvaToOffset` | tools/compatibility/trust-launch/TrustLaunchProbe.cs:2503-2532 | The loop with its match variable computes the specified mapping. |
| `PeSections.MapRvaExact` | tools/compatibility/trust-launch/TrustLaunchProbe.cs:2503-2532 | An offset comes back if and only if one section alone covers the address by its virtual or raw size and backs it there, said in the four header fields; unmapped, overlapping and unbacked addresses are rejected. |
| `PeSections.MapRvaOrderFree` | tools/compatibility/trust-launch/TrustLaunchProbe.cs:2503-2532 | Neither the answer nor the fact of a rejection depends on the order of the sections. |
| `PeSections.MapRvaInside` | tools/compatibility/trust-launch/TrustLaunchProbe.cs:2503-2532 | Every answer is an offset inside the file. |
| `PeParser.ReadPeOffset` | tools/compatibility/trust-launch/TrustLaunchProbe.cs:2393-2402 | The signature checks, with the reads behind the accepted bounds proved unrejectable. |
| `PeParser.ReadHeader` | tools/compatibility/trust-launch/TrustLaunchProbe.cs:2403-2411 | Machine, counts and sizes as checked; afterwards the optional header lies in the file. |
| `PeParser.ReadOptional` | tools/compatibility/trust-launch/TrustLaunchProbe.cs:2412-2424 | With the optional header accepted, its fixed-offset reads cannot be rejected. |
| `PeParser.ReadSections` | tools/compatibility/trust-launch/TrustLaunchProbe.cs:2424-2437 | The section table is read row by row, or rejected as a whole when it leaves the file. |
| `PeParser.ReadAsciiZ` | tools/compatibility/trust-launch/TrustLaunchProbe.cs:2534-2551 | The name loop computes the specified name or rejection. |
| `PeParser.AsciiZExact` | tools/compatibility/trust-launch/TrustLaunchProbe.cs:2534-2551 | A name is returned if and only if it is the text up to the first NUL, within the limit and the file. |
| `PeParser.ReadEntry` | tools/compatibility/trust-launch/TrustLaunchProbe.cs:2444-2461 | One descriptor: the all-zero end, a rejection, or its upper-cased name. |
| `PeParser.ReadEntries` | tools/compatibility/trust-launch/TrustLaunchProbe.cs:2442-2462 | The walk over the descriptors equals its recursive reading. |
| `PeParser.ReadImports` | tools/compatibility/trust-launch/TrustLaunchProbe.cs:2438-2464 | The import list, absent for an empty directory. |
| `PeParser.EntriesExact` | tools/compatibility/trust-launch/TrustLaunchProbe.cs:2442-2462 | Names are returned if and only if the walk ends right after them and each is the name of its descriptor. |
| `PeParser.ImportsExact` | tools/compatibility/trust-launch/TrustLaunchProbe.cs:2438-2464 | On success the list is exactly the names before the first all-zero descriptor or the limit of 4096 or size/20. |
| `PeParser.Contains` | tools/compatibility/trust-launch/TrustLaunchProbe.cs:2565-2580 | True if and only if the needle is a contiguous subsequence. |
| `PeParser.ReadAll` | tools/compatibility/trust-launch/TrustLaunchProbe.cs:2471-2501 | However the reads are split, the bytes are the first of the file, or one of four codes is raised. |
| `PeParser.Parse` | tools/compatibility/trust-launch/TrustLaunchProbe.cs:2386-2469 | Total for every file and every length: an inventory of the first bytes, or a controlled code, with every index and checked sum in range. |
| `PeLayout.HeaderReadsBack` | tools/compatibility/trust-launch/TrustLaunchProbe.cs:2393-2437 | For all values of all fields, a header printed field by field in the order of the PE format is parsed as exactly its sections and import directory, or rejected for machine, count, size, magic or directory count, in this order. |
| `PeLayout.SectionRowAt` | tools/compatibility/trust-launch/TrustLaunchProbe.cs:2428-2434 | A printed section row gives the four fields by their names. |
| `PeLayout.NameReadsBack` | tools/compatibility/trust-launch/TrustLaunchProbe.cs:2444-2461 | A printed descriptor with its zero-terminated name gives that name in capitals: the same letters, none of them small. |
| `PeLayout.NameExact` | tools/compatibility/trust-launch/TrustLaunchProbe.cs:2454-2463 | A descriptor is given a name if and only if a zero-terminated library name (visible ASCII, no separator, below 512 characters) stands where it points; the name is that text in capitals. |
| `PeLayout.ImportsReadBack` | tools/compatibility/trust-launch/TrustLaunchProbe.cs:2438-2464 | A printed import table is read back as exactly its names, in capitals and in order. |
| `PeLayout.FileReadsBack` | tools/compatibility/trust-launch/TrustLaunchProbe.cs:2386-2469 | From the printed file to its import list: header, section mapping and walk together. |
| `PeParser.Utf16At` | tools/compatibility/trust-launch/TrustLaunchProbe.cs:2559-2563 | The UTF-16 spelling of the manifest marker has each ASCII byte, then a zero. |
| `Common.UpperExact` | tools/compatibility/trust-launch/TrustLaunchProbe.cs:2463 | Upper-casing gives the one text that differs in letter case only and has no small letter. |
| `Base64.RoundTrip` | tools/backend/defender-control/DefenderControl.cs:340 | Decoding an encoding gives the bytes back, for every length. |
| `Base64.EncodedText` | tools/backend/defender-control/DefenderControl.cs:340 | An encoding is accepted base64 text (section 4 of RFC 4648) of its computed length. |
| `Base64.EncodedGroup` | tools/backend/defender-control/DefenderControl.cs:340 | Three bytes are 24 bits, most significant first, cut into four letters of the alphabet. |
| `DefenderRecord.JsonFits` | tools/backend/defender-control/DefenderControl.cs:411 | The UTF-8 text of every record the helper can write is at most 8192 bytes, so RESULT_LIMIT cannot be raised. |
| `DefenderRecord.CollectedIsWritable` | tools/backend/defender-control/DefenderControl.cs:239-248 | A record filled by a collection meets the bound on its text. |
| `DefenderRecord.ReceiptExact` | tools/backend/defender-control/Invoke-DefenderControl.ps1:200-215 | The controller accepts a record text exactly when the run completed under that id within 40 seconds, and decodes exactly the captured bytes. |
| `DefenderRecord.EmbeddedDecodes` | tools/backend/defender-control/DefenderControl.cs:239-248 | The embedded text decodes to the captured bytes if and only if the run completed or nothing was captured. |
| `DefenderJson.JsonReadsBack` | tools/backend/defender-control/DefenderControl.cs:239-248 | The text of every record a collection can leave is one flat JSON object whose twelve members say, by name, what the record holds. |
| `DefenderJson.JsonTellsAll` | tools/backend/defender-control/DefenderControl.cs:239-248 | Two records a collection can leave have the same text only if they are equal: error code, flags, exit code, time and output can all be told from it. |
| `DefenderJson.MembersReadBack` | tools/backend/defender-control/DefenderControl.cs:239-248 | Any members without quotes inside are read back from their text, in order. |
| `DefenderPipe.PipeBuffer.Drain` | tools/backend/defender-control/DefenderControl.cs:209-231 | After any read the buffer holds everything consumed so far, or a failure says why; an over-long stdout or any stderr byte is a failure; a normal end has read all that was waiting, or at least a byte of it. |
| `DefenderPipe.PipeBuffer.Keep` | tools/backend/defender-control/DefenderControl.cs:209-231 | Kept bytes are appended in order in place, and nothing else changes. |
| `DefenderPipe.PipeBuffer.Clear` | tools/backend/defender-control/DefenderControl.cs:230 | Clearing leaves only zero bytes. |
| `DefenderControl.CheckStop` | tools/backend/defender-control/DefenderControl.cs:284-289 | Going on means the deadline had not passed, the controller was there and nobody had cancelled; every stop has one of four codes, and the code is true. |
| `DefenderControl.StillBlamed` | tools/backend/defender-control/DefenderControl.cs:284-289 | What an error code says of the run stays true: out of time, controller gone, cancelled, outside the job, wrong identity, output on stderr or too long, exit code not 0, or a call that failed. |
| `DefenderControl.Approve` | tools/backend/defender-control/DefenderControl.cs:318-329 | A child is resumed only after it was found in its job and with the right identity, with time left, the controller there and no cancellation. |
| `DefenderControl.Launch` | tools/backend/defender-control/DefenderControl.cs:290-329 | Each failure tells exactly how far the launch had come, which check it was, and that its cause is real. |
| `DefenderControl.Turn` | tools/backend/defender-control/DefenderControl.cs:330-337 | One poll: the flags are the last answers and true of the child, the job sample, taken last, is still exact at the end of the turn, and the pipes flag is exact too; a turn that was not stopped has read on from both pipes; a stop has a true cause. |
| `DefenderControl.Poll` | tools/backend/defender-control/DefenderControl.cs:330-337 | The loop ends by its 30000 ms measure; a normal end means exited, job empty and both pipes at their end, any other has a true cause. |
| `DefenderControl.Finish` | tools/backend/defender-control/DefenderControl.cs:338-342 | The exit code and the output are taken after the end of both pipes, before any buffer is cleared. |
| `DefenderControl.Await` | tools/backend/defender-control/DefenderControl.cs:350-358 | The wait after a stop ends by its 3000 ms measure: normally if and only if no query failed and both have ended; it gives up only after a reading of the clock 3000 ms after the stop. |
| `DefenderControl.Reap` | tools/backend/defender-control/DefenderControl.cs:344-358 | A child that has not ended is told to stop, once; the end is normal if and only if the stop and all queries worked and the last answers are root exited and job empty; one that had ended is left alone. |
| `DefenderControl.CatchAndReap` | tools/backend/defender-control/DefenderControl.cs:342-364 | CLEANUP_INCOMPLETE is recorded if and only if the stop or a later query failed or the last answers leave root or job alive, in which case 3000 ms had passed; otherwise the error of the guarded part stands. |
| `DefenderControl.Collect` | tools/backend/defender-control/DefenderControl.cs:290-365 | On every schedule: Error is NONE if and only if Completed, then the child was checked before resume, exited 0, the job is empty, both pipes ended, and Output encodes its whole stdout; every error is a true one; nothing is left behind unless CLEANUP_INCOMPLETE says so, which it does exactly for a cleanup that failed or ran out of time; the two buffers of the run end all zero. |
| `DefenderControl.ReceiptMeansChild` | tools/backend/defender-control/Invoke-DefenderControl.ps1:200-215 | From the accepted text on disk back to the child: acceptance implies the checked, finished, contained child, and the decoded bytes are everything it wrote. |
| `SyntheticPipe.PipeBuffer.Drain` | tools/backend/native-synthetic/SyntheticLaunchHarness.cs:287-316 | Under any chunking the buffer holds the first 4096 bytes consumed, `Exceeded` tells if there were more, and one call reads at most two pieces, but not less than what is waiting or two bytes. |
| `SyntheticPipe.PipeBuffer.ReadPiece` | tools/backend/native-synthetic/SyntheticLaunchHarness.cs:298-314 | One piece keeps all of that. |
| `SyntheticPipe.AsciiTextExact` | tools/backend/native-synthetic/SyntheticLaunchHarness.cs:296 | Bytes are read as a plain ASCII text if and only if they are its codes. |
| `SyntheticLaunch.ShowsExact` | tools/backend/native-synthetic/SyntheticLaunchHarness.cs:443-446 | A line is shown if and only if its codes are somewhere in the first 4096 bytes. |
| `SyntheticLaunch.ShowsMore` | tools/backend/native-synthetic/SyntheticLaunchHarness.cs:436-455 | A handshake line once shown stays shown as more is read. |
| `SyntheticLaunch.StillTruthful` | tools/backend/native-synthetic/SyntheticLaunchHarness.cs:436-470 | An outcome that was true stays true however the world moves on after the stop. |
| `SyntheticLaunch.TimeUp` | tools/backend/native-synthetic/SyntheticLaunchHarness.cs:445-462 | Time is up only 4000 ms after the resumption, or 300 ms after a reading of the clock at which READY had been read; and it is not missed. |
| `SyntheticLaunch.Decide` | tools/backend/native-synthetic/SyntheticLaunchHarness.cs:443-466 | Every outcome decided is a fact about the child, its job, the streams or the time; the tests come in their order, none is missed, and a fault has a failed call behind it. |
| `SyntheticLaunch.Notice` | tools/backend/native-synthetic/SyntheticLaunchHarness.cs:438-455 | What is sampled and noted is true of the child; handshake, time of READY and cancellation are noted exactly in the turn that shows them. |
| `SyntheticLaunch.Look` | tools/backend/native-synthetic/SyntheticLaunchHarness.cs:440-446 | The job is sampled before the root, so the root sample is still exact at the end; READY and LEAF are seen exactly when they have been read, and both pipes have been read on. |
| `SyntheticLaunch.NoteReady` | tools/backend/native-synthetic/SyntheticLaunchHarness.cs:448 | READY had been read at the noted time. |
| `SyntheticLaunch.RunPoll` | tools/backend/native-synthetic/SyntheticLaunchHarness.cs:436-470 | The loop always leaves with a true outcome, or a fault that a failed call explains, by its 4000 ms measure, which starts after the resumption. |
| `SyntheticLaunch.CleanUp` | tools/backend/native-synthetic/SyntheticLaunchHarness.cs:486-500 | The cleanup loop ends by its own deadline: normally if and only if no query failed, with the last answers as its flags, and not complete only after 3000 ms. |
| `SyntheticLaunch.Finally` | tools/backend/native-synthetic/SyntheticLaunchHarness.cs:478-504 | The job is always told to stop; it is a failure if and only if a query failed or, with no time left, something had not ended at the last look. |
| `SyntheticLaunch.Stop` | tools/backend/native-synthetic/SyntheticLaunchHarness.cs:484-487 | The job is always told to stop, and the root too when it was seen to be still running. |
| `SyntheticLaunch.FinishedIsSettled` | tools/backend/native-synthetic/SyntheticLaunchHarness.cs:478-504 | Cleanup keeps every earlier truth and either settles the child or records CleanupFailed, exactly when it failed. |
| `SyntheticLaunch.VerdictIsRecorded` | tools/backend/native-synthetic/SyntheticLaunchHarness.cs:505-509 | A recorded pass on a created child is earned. |
| `SyntheticLaunch.RunCase` | tools/backend/native-synthetic/SyntheticLaunchHarness.cs:371-512 | Passed on a created child implies the expected outcome, no live job member, both streams ended; a Timeout is 4000 ms after the resumption or 300 ms after READY was read; DescendantsAfterParentExit follows a last job count above 0, an ended child's other outcomes one of 0 or a tree not yet seen; Error has a failed call or check behind it; CleanupFailed is recorded exactly for a cleanup that failed; every created child was told to stop; with injection it was never resumed; a tree case really showed READY and LEAF. |
| `Paths.WithinScopeIsContainment` | tools/compatibility/trust-launch/TrustLaunchProbe.cs:1944-1950 | On normalised paths the string test holds if and only if the root's components are, up to the case of their letters, the first ones of the candidate. |
| `Paths.WithinScopePreorder` | tools/compatibility/trust-launch/TrustLaunchProbe.cs:1944-1950 | The test is reflexive and transitive. |
| `Paths.SiblingExcluded` | tools/compatibility/trust-launch/TrustLaunchProbe.cs:1944-1950 | Below the same parent nothing is inside but what is below a name that differs in letter case at most: no sibling with a shared prefix, nor one of equal length. |
| `Common.SameIgnoringCaseExact` | tools/compatibility/trust-launch/TrustLaunchProbe.cs:1944-1950 | Folded texts are equal if and only if each character is the same or the same ASCII letter in the other case. |
| `Paths.TrimEndExact` | tools/compatibility/trust-launch/TrustLaunchProbe.cs:1946 | What is left is all up to the separators at the end. |
| `Paths.SameRendered` | tools/compatibility/trust-launch/TrustLaunchProbe.cs:2119-2132 | Normalised paths are equal ignoring case if and only if their components differ in letter case at most. |
| `Paths.HexDigitsAre` | tools/compatibility/trust-launch/TrustLaunchProbe.cs:996-1004 | Each byte is the two characters at the places of its halves in the row of digits. |
| `Paths.Hex` | tools/compatibility/trust-launch/TrustLaunchProbe.cs:996-1004 | The digits of the bytes, two each. |
| `Paths.HexRoundTrip` | tools/compatibility/trust-launch/TrustLaunchProbe.cs:996-1004 | Lower-case digits that give the bytes back. |
| `Paths.IsPermittedName` | tools/compatibility/trust-launch/TrustLaunchProbe.cs:1914-1942 | The name test accepts exactly the prefix and 32 lower-case hexadecimal digits. |
| `Paths.PermittedNamesAreLeaves` | tools/compatibility/trust-launch/TrustLaunchProbe.cs:2724-2730 | Accepted names are exactly the leaves made from 16 bytes. |
| `Paths.LeavesAreDistinct` | tools/compatibility/trust-launch/TrustLaunchProbe.cs:2724-2730 | Different bytes make different leaves. |
| `TreeDelete.DeleteSecondLevel` | tools/compatibility/trust-launch/TrustLaunchProbe.cs:3832-3853 | A file or a link goes, alone; a real directory is refused and stays. |
| `TreeDelete.DeleteFirstLevel` | tools/compatibility/trust-launch/TrustLaunchProbe.cs:3811-3856 | One entry of the root goes with all below it, a link without being looked into. |
| `TreeDelete.DeleteScopedTree` | tools/compatibility/trust-launch/TrustLaunchProbe.cs:3806-3858 | Normal return removes exactly root and subtree, and happens if and only if no call failed and no real directory was nested deeper; in every outcome nothing outside changes and no link is listed. |
| `EnvironmentBlock.Build` | tools/compatibility/trust-launch/TrustLaunchProbe.cs:1566-1598 | Refused exactly for a missing, empty or unrooted SystemRoot or a NUL in one of the two paths; otherwise the block of the five pairs in dictionary order. |
| `EnvironmentBlock.Print` | tools/compatibility/trust-launch/TrustLaunchProbe.cs:1581-1593 | The loop prints every pair or refuses at the first NUL. |
| `EnvironmentBlock.BlockRoundTrip` | tools/compatibility/trust-launch/TrustLaunchProbe.cs:1581-1593 | A printed block is read back as exactly its pairs, values with an equals sign included. |
| `EnvironmentBlock.OrderDoesNotMatter` | tools/compatibility/trust-launch/TrustLaunchProbe.cs:2055-2066 | Whatever the order of enumeration, the same names stay distinct and complete. |
| `EnvironmentBlock.BuiltIsAccepted` | tools/compatibility/trust-launch/TrustLaunchProbe.cs:1566-1598 | The child that reads the built block reports 0 if and only if its full paths resolve and the expected directory is the printed one. |
| `EnvironmentBlock.OwnFullPathAgrees` | tools/compatibility/trust-launch/TrustLaunchProbe.cs:3136-3148 | The full path the caller passes is the same path. |
| `EnvironmentPolicy.PolicyIsHarmless` | tools/compatibility/trust-launch/TrustLaunchProbe.cs:2134-2169 | The five allowed names are different and on none of the deny lists. |
| `EnvironmentPolicy.ListsExact` | tools/compatibility/trust-launch/TrustLaunchProbe.cs:2134-2169 | The tests of a folded name say of the name as written: on the list, beginning with a prefix, holding a fragment, up to the case of letters. |
| `EnvironmentPolicy.PolicyIsFolded` | tools/compatibility/trust-launch/TrustLaunchProbe.cs:2134-2169 | Nothing in the lists has a small letter. |
| `EnvironmentWorker.Collect` | tools/compatibility/trust-launch/TrustLaunchProbe.cs:2055-2066 | A dictionary results exactly when no name or value is null and no name repeats, ignoring case. |
| `EnvironmentWorker.RaiseMissing` | tools/compatibility/trust-launch/TrustLaunchProbe.cs:2068-2078 | The five missing bits, each for its own name. |
| `EnvironmentWorker.RaiseForKeys` | tools/compatibility/trust-launch/TrustLaunchProbe.cs:2085-2105 | A list bit is raised if and only if some name is on that list. |
| `EnvironmentWorker.RaisePairs` | tools/compatibility/trust-launch/TrustLaunchProbe.cs:2107-2116 | The three comparison bits are raised only when both sides exist and differ. |
| `EnvironmentWorker.SamePathExact` | tools/compatibility/trust-launch/TrustLaunchProbe.cs:2119-2132 | Two paths are the same if and only if the first resolves to the components of the second, up to the case of letters. |
| `EnvironmentWorker.CombineExact` | tools/compatibility/trust-launch/TrustLaunchProbe.cs:2108 | The combined path is the component below the first, unless that ends like a bare drive. |
| `EnvironmentWorker.System32Exact` | tools/compatibility/trust-launch/TrustLaunchProbe.cs:2107-2109 | A PATH value is the System32 directory of a root if and only if it resolves to the root's components and that one. |
| `EnvironmentWorker.Run` | tools/compatibility/trust-launch/TrustLaunchProbe.cs:2036-2117 | The mask states exactly the flags that hold of the table; an unclean environment gives bit 5 alone. |
| `EnvironmentWorker.AllowlistSettles` | tools/compatibility/trust-launch/TrustLaunchProbe.cs:2079-2105 | Bit 5 is clear if and only if the names are exactly the five; then bits 8 to 11 and the missing bits are clear too. |
| `EnvironmentWorker.ZeroMeansAccepted` | tools/compatibility/trust-launch/TrustLaunchProbe.cs:2036-2117 | The mask is 0 if and only if there are exactly the five names with matching paths. |
| `EnvironmentWorker.DecodingIsFaithful` | tools/compatibility/trust-launch/TrustLaunchProbe.cs:2286-2307 | For every clean environment each decoded field equals the predicate read directly off it, and no bit beyond the thirteen is set. |
| `EnvironmentWorker.UncleanDecodesAsAllButAllowlist` | tools/compatibility/trust-launch/TrustLaunchProbe.cs:2061-2064 | For an unclean environment the decoding claims everything but the allow-list. |
| `EnvironmentReport.CleanReadsAlike` | tools/compatibility/trust-launch/TrustLaunchProbe.cs:2055-2116 | For a clean environment the table and the raw entries say the same. |
| `EnvironmentReport.ReportIsFaithfulExactly` | tools/compatibility/trust-launch/TrustLaunchProbe.cs:2286-2307 | For every environment and every field but the allow-list: what is decoded is the fact read off the entries if and only if the environment is clean or the fact holds anyway; the allow-list field is always the fact. |
| `EnvironmentReport.Observe` | tools/compatibility/trust-launch/TrustLaunchProbe.cs:3166-3176 | The same of the whole exchange; it is accepted if and only if there are exactly the five names, TEMP and TMP resolve to the components of the expected directory, and the two pairs of Windows paths agree. |
| `EnvironmentReport.ZeroMeansPrivateTemp` | tools/compatibility/trust-launch/TrustLaunchProbe.cs:2036-2117 | A report of 0, read off the entries: those five names, each once, with TEMP and TMP resolving to the components of the expected directory. |
| `EnvironmentReport.RepeatedNameMisreports` | tools/compatibility/trust-launch/TrustLaunchProbe.cs:2061-2064 | Whatever the worker reports on two names that differ in case only, a SystemRoot is claimed that is not there. |
| `EnvironmentMask.Adding` | tools/compatibility/trust-launch/TrustLaunchProbe.cs:2068-2116 | Or-ing a bit raises that flag and leaves every other as it was. |
| `EnvironmentMask.ZeroIsClean` | tools/compatibility/trust-launch/TrustLaunchProbe.cs:3166-3176 | A mask without foreign bits is 0 if and only if it raises nothing. |
| `EnvironmentMask.Reading` | tools/compatibility/trust-launch/TrustLaunchProbe.cs:2286-2307 | Every bit, alone and in the three groups, reads back as the raised flags. |
| `LedgerCases.AllIsComplete` | tools/compatibility/trust-launch/TrustLaunchProbe.cs:222-283 | The list holds the 56 mandatory cases, each once. |
| `ProbeSuite.Suite.Set` | tools/compatibility/trust-launch/TrustLaunchProbe.cs:3880-3896 | Refuses an unknown case and, outside TL-CLEAN, one already set, without a change; otherwise changes that case alone. |
| `ProbeSuite.Suite.SetIfUnreached` | tools/compatibility/trust-launch/TrustLaunchProbe.cs:3872-3878 | A reached case is left alone. |
| `ProbeSuite.Suite.BlockUnreached` | tools/compatibility/trust-launch/TrustLaunchProbe.cs:3860-3870 | Every unreached case becomes Blocked with the code, every other stays. |
| `ProbeSuite.Suite.SetMutationCase` | tools/compatibility/trust-launch/TrustLaunchProbe.cs:3721-3735 | Records that verdict for its case alone. |
| `ProbeSuite.Suite.RunIdentityAndRaceTests` | tools/compatibility/trust-launch/TrustLaunchProbe.cs:2773-2871 | From untouched cases, with any exception anywhere: however it ends only its own cases were written, once each, and all of them on a normal end. |
| `ProbeSuite.Suite.RunReparseReplacementTest` | tools/compatibility/trust-launch/TrustLaunchProbe.cs:2873-3001 | Decides its case in every run, whatever was thrown inside; it passes only for a worker that was blocked and a fixture that is gone. |
| `ProbeSuite.Suite.RunPeAndTokenTests` | tools/compatibility/trust-launch/TrustLaunchProbe.cs:3039-3071 | The same for its four cases, each pass and fail borne out by what was observed. |
| `ProbeSuite.Suite.RunTreeKillOnClose` | tools/compatibility/trust-launch/TrustLaunchProbe.cs:3370-3454 | TL-JOB-007 and TL-JOB-010 are decided exactly when TL-JOB-006 passed; an early return leaves both unreached. |
| `ProbeSuite.Suite.RunHandleLeakTest` | tools/compatibility/trust-launch/TrustLaunchProbe.cs:3493-3530 | However it ends, restoring the flag included, the case is as it was or decided once, and no other was written. |
| `ProbeSuite.Suite.RunEnvironmentObservation` | tools/compatibility/trust-launch/TrustLaunchProbe.cs:3136-3193 | A ControlledException becomes the verdict; after any other exception nothing was written. |
| `ProbeSuite.Suite.RunModuleObservation` | tools/compatibility/trust-launch/TrustLaunchProbe.cs:3195-3340 | Its three cases are decided together, in the catch or after it. |
| `ProbeSuite.EnvironmentVerdict` | tools/compatibility/trust-launch/TrustLaunchProbe.cs:3150-3180 | A report passes if and only if it is empty, and is invalid if and only if it has a bit beyond the thirteen. |
| `ProbeSuite.TimedVerdict` | tools/compatibility/trust-launch/TrustLaunchProbe.cs:3342-3368 | A timed case passes if and only if the child was ready, still running, terminated and gone. |
| `ProbeSuite.Mutation` | tools/compatibility/trust-launch/TrustLaunchProbe.cs:3721-3735 | A mutation attempt passes if and only if it failed with error 5 or 32. |
| `ProbeSuite.InitialVerdict` | tools/compatibility/trust-launch/TrustLaunchProbe.cs:3272-3299 | Passes if and only if path and file match and the inventory shows the main image, is not empty, and has nothing unexpected. |
| `ProbeSuite.RuntimeVerdict` | tools/compatibility/trust-launch/TrustLaunchProbe.cs:3301-3320 | Passes if and only if the inventory shows the main image, is not empty, and has nothing unexpected. |
| `ProbeSuite.RejectionVerdict` | tools/compatibility/trust-launch/TrustLaunchProbe.cs:3322-3339 | The rejection case fails if and only if a window saw an unexpected module, and passes if and only if both windows exist and saw none. |
| `ProbeSuite.ReparseVerdict` | tools/compatibility/trust-launch/TrustLaunchProbe.cs:2905-2970 | The worker passes if and only if path, job, exit code 10, stability and removal of links are all as wanted. |
| `ProbeSuite.RestrictedFault` | tools/compatibility/trust-launch/TrustLaunchProbe.cs:3545-3568 | A restricted child has no fault if and only if token, job and image policy are all acceptable. |
| `ProbeSuite.Suite.RunJobAndProcessTests` | tools/compatibility/trust-launch/TrustLaunchProbe.cs:3073-3134 | On a normal end all its cases but the two of the tree are decided and no other written; on the way out it may also have written TL-IMG-003 or TL-TOK-005, nothing else. |
| `ProbeSuite.Suite.RunRestrictedTokenTest` | tools/compatibility/trust-launch/TrustLaunchProbe.cs:3532-3584 | Its catch sets two cases that the try block cannot have set. |
| `ProbeSuite.Suite.SetUnprovenCases` | tools/compatibility/trust-launch/TrustLaunchProbe.cs:3586-3595 | TL-VR-001 fails whenever this is reached, and names the adjacent mutation if and only if one succeeded; decided module cases are left alone. |
| `ProbeSuite.Suite.RunFalsePositiveTests` | tools/compatibility/trust-launch/TrustLaunchProbe.cs:3597-3618 | Each of the sixteen injected states is rejected. |
| `ProbeSuite.Suite.Cleanup` | tools/compatibility/trust-launch/TrustLaunchProbe.cs:3737-3795 | TL-CLEAN-003 passes if and only if cleanup succeeded: the root removed, the source unchanged, no helper and no Velociraptor left; then the other two passed; it may throw, with no case unreached. |
| `ProbeSuite.Suite.Run` | tools/compatibility/trust-launch/TrustLaunchProbe.cs:2683-2715 | In every run no CASE_SET_TWICE, every case reached, each outside TL-CLEAN written exactly once; every pass is borne out by what was observed of the platform, so is every fail that no exception stands in for, and every recorded finding is one of its case and true of the platform; exit code 2 if and only if cleanup succeeded without a fatal code; without one every case was decided by its phase, except TL-JOB-007 and TL-JOB-010 if and only if TL-JOB-006 did not pass, and no backend launch is claimed. |
| `LedgerCases.ReachedIsWrittenOnce` | tools/compatibility/trust-launch/TrustLaunchProbe.cs:3880-3896 | A reached case outside TL-CLEAN has been written exactly once. |
| `LedgerCases.DecidedStays` | tools/compatibility/trust-launch/TrustLaunchProbe.cs:3880-3896 | A decided case stays decided through every later step. |
| `Workspace.DirectoryLease.Dispose` | tools/backend/defender-control/Workspace.cs:32-37 | Every held handle is closed, last to first, no other, and the list is empty. |
| `Workspace.AncestorPaths` | tools/backend/defender-control/Workspace.cs:75-77 | The directory and its ancestors, root first. |
| `Workspace.HoldDirectory` | tools/backend/defender-control/Workspace.cs:65-97 | Either every ancestor is held from root to leaf, each a real directory at its own path on a fixed NTFS drive, or what was opened is closed again in reverse and nothing stays open; with calls that work it is refused only for one of these. |
| `Workspace.Examine` | tools/backend/defender-control/Workspace.cs:85-92 | A handle is accepted only for a directory that is no link and whose final path is the one opened; with calls that work, always then. |
| `Workspace.SolidIsThere` | tools/backend/defender-control/Workspace.cs:85-92 | An accepted handle is on the directory it was asked for: the final path has the same drive and the same names but for letter case, and any such path is accepted. |
| `Workspace.WorkspaceLease.Dispose` | tools/backend/defender-control/Workspace.cs:58 | Leaf before parents, each in reverse, and exactly those handles. |
| `Workspace.WorkspaceLease.Acquire` | tools/backend/defender-control/Workspace.cs:42-57 | On success both chains of real directories are held and the directory on the disk is private, a new one also empty and new; on any refusal no handle stays open, and with calls that work there is a reason; no existing access list is ever changed. |
| `Workspace.CreateNewPrivate` | tools/backend/defender-control/Workspace.cs:98-114 | A new directory gets its access list at once; an existing name is refused and left as it is. |
| `Workspace.CheckLeaf` | tools/backend/defender-control/Workspace.cs:53-54 | Accepted only if that directory of the disk is private, and empty if it is to be new; with calls that work, always then. |
| `AccessList.AssertPrivateDirectory` | tools/backend/defender-control/Workspace.cs:115-136 | Accepts if and only if the directory is protected, owned by the user, and its rules are a permutation of the three exact grants to three different principals. |
| `AccessList.MatchRules` | tools/backend/defender-control/Workspace.cs:126-134 | The loop that removes while it iterates equals its recursive reading. |
| `AccessList.RemovesIsPermutation` | tools/backend/defender-control/Workspace.cs:126-134 | That reading accepts exactly the permutations of the grants to the expected identities. |
| `AccessList.CreatedIsPrivate` | tools/backend/defender-control/Workspace.cs:98-114 | The descriptor of a new directory passes the check if and only if the user is neither of the other two principals. |
| `Framing.ReadFrame` | tools/backend/native-boundary/NativeBoundaryHarness.cs:154-168 | A frame is read if and only if printable characters and a newline come first, at most 255 of them. |
| `Framing.Exchange` | tools/backend/native-boundary/NativeBoundaryHarness.cs:77-82 | A frame survives sending and reading if and only if it is printable and at most 255 characters long, whatever follows it. |
| `Framing.FirstLineStays` | tools/backend/native-boundary/NativeBoundaryHarness.cs:84-94 | A first line once complete is the first line of every longer stream. |
| `Framing.FirstLine` | tools/backend/native-boundary/NativeBoundaryHarness.cs:84-94 | What is returned is the first line of all the child ever writes, however it was read; an error is a true one: a failed call, too much output, an end without a line, or 5000 ms. |
| `Framing.Finish` | tools/backend/native-boundary/NativeBoundaryHarness.cs:101-115 | A normal end means the child is gone with the expected code, the job empty, the text all it ever wrote, and nothing on stderr; an error is a true one. |
| `Framing.Challenge.AcceptEach` | tools/backend/native-boundary/NativeBoundaryHarness.cs:248-249 | Of any sequence of frames exactly the first matching one is admitted. |
| `Framing.CheckReplies` | tools/backend/native-boundary/NativeBoundaryHarness.cs:304-312 | A mode passes if and only if the lines are the ones it must come back with; the challenge is then used, except in the wrong mode. |
| `Framing.RunChallenge` | tools/backend/native-boundary/NativeBoundaryHarness.cs:297-315 | When it gets to a verdict, it is a verdict on all the child wrote until it ended, and a child that wrote the reply to the nonce passes. |
| `Framing.EchoWorker` | tools/backend/native-boundary/NativeBoundaryHarness.cs:202-207 | The worker says the reply to the frame it reads, or refuses one that is no challenge. |
| `Framing.NonceArrives` | tools/backend/native-boundary/NativeBoundaryHarness.cs:77-82 | Every nonce is sent, and is the frame that is read. |
| `Framing.RepliesSplit` | tools/backend/native-boundary/NativeBoundaryHarness.cs:202-207 | The reply to a nonce is what the parent accepts in that mode: the echo passes, the altered one is refused, the replay denied. |

## Left out

- Text is a sequence of Unicode characters rather than UTF-16 units, and ignoring case folds the ASCII letters only.
- `Path.GetFullPath` is a parameter that may fail, or paths are given as normalised components; `Path.Combine` and `IsPathRooted` do not throw for invalid characters.
- EnvironmentWorker.Run: starts after the scope and the name of the expected directory were accepted.
- ProbeSuite.Suite.Run: what the phases observe of tokens, identities, hashes, images, modules and worker outcomes is an arbitrary value of `ProbeFacts.Facts`; how it is queried is not modelled; the codes of exceptions raised by operations are assumed to differ from NOT_REACHED, as all codes in the source do. An outcome that is none of the four is excluded by its type.
- ProbeSuite.Suite.RunReparseReplacementTest: what the worker itself does is not modelled, only its exit code.
- DefenderControl.Collect: a request to cancel is not withdrawn during a run; the disposal of the handle list, of the attribute list and of the owned handles is not modelled, nor that closing the job ends its members, nor the watchdog.
- SyntheticLaunch.RunCase: DescendantsAfterParentExit says that the last job count was above 0 and the root had exited, not that a descendant was still alive, because the job is sampled before the root; the error text and native error of the report are not modelled.
- PeParser.Parse: when a read of the file fails is up to the system; the manifest markers are found by `PeParser.Contains`.
- TreeDelete.DeleteScopedTree: nobody else writes to the tree at the same time.
- Framing.RunChallenge: what the child does with the nonce is up to the child; `Framing.EchoWorker` is the worker of the case.
- Framing.Exchange: the write to the pipe goes through as a whole, and the worker finds all its input in the pipe.
- Workspace.WorkspaceLease.Acquire: nobody else changes the access lists on the disk meanwhile; a directory that was created stays when a later check refuses it, as in the source; which calls fail is up to the system.
- Structure layouts, P/Invoke declarations, token, SID and hash queries, real process creation, elevation: steps of the environment.
- `SecurityGateState.Inject` is modelled as clearing one of sixteen flags.
- Single-branch classifications (`IntegrityName`, `ElevationTypeName`, `CheckAcl`) would add only easy members.
- The race and reparse workers' file locks, module enumeration, mitigation flags, the entry scripts, the forms, the schemas and the JavaScript modules are not part of this model.
