# LinuxParser of CppND-System-Monitor, in Dafny

This project models the accessor layer of a small system monitor,
`src/linux_parser.cpp`. Each accessor opens a `/proc`-style pseudo-file,
takes it apart with the C++ standard streams (`std::getline`, `istream >>
string`, `istream >> long`) and the conversions `std::stol`, `std::stoi` and
`std::stof`, and returns a name, a token list or a sum.

The Dafny model has four modules:

- `Wrappers`:
  - `Option`;
  - `Exception`, with `invalid_argument` and `out_of_range`;
  - `Result`, a value or the exception a conversion threw.
- `Text`, the stream primitives:
  - C-locale `isspace`;
  - the tokens that repeated `>>` into a `std::string` extracts (`Tokens`);
  - the value an extraction target holds when the chain stops early (`Extracted`);
  - the lines `getline` yields (`Lines`, `FirstLine`);
  - `std::replace`, both as a function and as an in-place loop over an `array<char>` (`ReplaceInPlace`).
- `Numbers`, the conversions:
  - `Stol` and `Stoi` throw on a missing number and on one out of range;
  - `StofInteger` is the leading integer of the text `stof` reads (see "## Left out" for where the two differ);
  - `ExtractLong` is `>>` into a `long`: 0 on failure, saturating on overflow;
  - `SumFrom` is a left-to-right chain of `acc += conv(v)`, where the first exception ends it.
- `LinuxParser`, the accessors:
  - a file is a parameter `file: Option<string>`, holding its contents or `None` when the stream did not open;
  - the `/proc` listing is a sequence of `DirEntry(name, isDirectory)`.

`OperatingSystem`, `MemoryUtilization`, `ActiveJiffies(int pid)` and `Pids`
change variables step by step in the C++. They are methods with loops,
proved equal to a function. Properties are then proved about that function.
The other accessors are expressions over tokens, so they are functions.

There are two overloads in the C++. In the model they get separate names:
- `ActiveJiffies(int pid)` becomes `ProcessActiveJiffies` (the loop itself is `SumTimeFields`);
- `UpTime(int pid)` becomes `ProcessUpTime`.

The model follows what the code does, not a cleaner reading of it:

- **`key` and `value` carry across lines.** Both are declared outside the loops in `OperatingSystem` and `MemoryUtilization`. A failed `>>` leaves them unchanged.
  - A blank line after a `MemTotal:` line adds that value again (`MemScanShortLine`).
  - `OperatingSystem` without a `PRETTY_NAME` pair returns the value of the last pair it read, not "".
- **The three system jiffy accessors read the uptime file** (`kUptimeFilename`), whose first line holds two numbers.
  - For any first line with at most three tokens, all three accessors throw (`JiffiesOfShortLine`). `IdleJiffies` throws `invalid_argument` from `std::stol("")`. `Jiffies` and `ActiveJiffies` may instead throw `out_of_range`, from an earlier field too large for a `long`.
  - The two-number uptime line is an instance (`JiffiesOfUptimeFile`).
  - On a first line of six or more tokens they would add tokens 1-5, 1-3 and 4-5 through `std::stol` (`JiffiesOfTokens`, `JiffiesOfLine`): the user to iowait counters of a `cpu` line.
- **`MemoryUtilization` adds `MemTotal:` and `MemFree:`.** Every occurrence counts.
- **A failed conversion is an error result, not 0.** In `ActiveJiffies(pid)`, a stat file whose time fields do not convert makes `std::stol` throw; the model returns `Err`.

## Model

| member | source | states |
|---|---|---|
| Text.Tokens | src/linux_parser.cpp:26-27 | every string `>>` extracts is non-empty and free of whitespace |
| Text.Extracted | src/linux_parser.cpp:81 | a `>>` past the last token leaves its target as it was; whatever it holds afterwards is the old value or a token of the line |
| Text.Decompose | src/linux_parser.cpp:26-27 | a string is exactly its tokens interleaved with its whitespace runs; the runs between tokens are non-empty |
| Text.TokensOfInterleave | src/linux_parser.cpp:26-27 | words separated by whitespace runs that are non-empty between words are read back exactly, in order |
| Text.TokensOfJoin | src/linux_parser.cpp:179-181 | joining words with single spaces and re-reading them gives the same words |
| Text.JoinIsSingleSpaced | src/linux_parser.cpp:179-181 | a single-space join is the interleaving with "" at both ends and " " between words |
| Text.Lines | src/linux_parser.cpp:22 | no line getline yields holds '\n'; a non-empty stream yields at least one line |
| Text.LinesRestore | src/linux_parser.cpp:22 | the lines, rejoined with '\n' and followed by a final '\n' when the stream had one, are the whole stream |
| Text.LinesCons | src/linux_parser.cpp:22 | a line ended by '\n' is read first and the rest yields the remaining lines; getline stores that line |
| Text.LinesLast | src/linux_parser.cpp:44 | a stream without '\n' is one line, and getline stores all of it |
| Text.FirstLine | src/linux_parser.cpp:44 | the single getline stores a line with no '\n', the first of the stream's lines |
| Text.TokensOfFirstLine | src/linux_parser.cpp:44-46 | the tokens of the first line of a stream that starts with words and separators are those words, whatever follows |
| Text.Replace | src/linux_parser.cpp:23-25 | replacing keeps the length, and `from` no longer occurs when it differs from `to` |
| Text.ReplaceInPlace | src/linux_parser.cpp:23 | the in-place loop leaves the buffer equal to the replaced string |
| Text.ReplaceAppend | src/linux_parser.cpp:23-25 | replacing in a concatenation is replacing in each part |
| Numbers.DigitsLen | src/linux_parser.cpp:112 | the digit run that starts a string: all digits, and followed by a non-digit or the end |
| Numbers.LeadingIntegerMeaning | src/linux_parser.cpp:112 | the number conversions read: skip the whole leading run of whitespace, then read an optional sign and the longest run of digits |
| Numbers.DecimalValueOfString | src/linux_parser.cpp:112 | the decimal spelling of `n` denotes `n` |
| Numbers.Stol | src/linux_parser.cpp:112 | stol succeeds exactly when there is a leading integer that fits a long, and then yields that integer; it throws invalid_argument exactly when there is none |
| Numbers.Stoi | src/linux_parser.cpp:62 | stoi fails exactly as stol does, and when stol succeeds, stoi yields the same value inside the int range and throws out_of_range outside it |
| Numbers.StofInteger | src/linux_parser.cpp:83 | the conversion fails exactly when there is no leading number, and otherwise yields its integer part |
| Numbers.ExtractLong | src/linux_parser.cpp:97 | the extracted value is always a long; it is 0 when no number is read, the number itself when that fits, LONG_MAX above the range and LONG_MIN below it |
| Numbers.LeadingDigits | src/linux_parser.cpp:112 | digits followed by a non-digit are read as their decimal value |
| Numbers.LeadingNegativeDigits | src/linux_parser.cpp:112 | a minus sign before the digits negates the value |
| Numbers.LeadingIntegerAfterSpace | src/linux_parser.cpp:112 | leading whitespace does not change the number read |
| Numbers.StolOfDecimal | src/linux_parser.cpp:112 | stol of a decimal spelling is that number up to LONG_MAX and out_of_range above it, whatever non-digit follows |
| Numbers.StolOfNegativeDecimal | src/linux_parser.cpp:112 | stol of a negative spelling is that number down to LONG_MIN and out_of_range below it |
| Numbers.StolOfEmpty | src/linux_parser.cpp:112 | stol("") throws invalid_argument |
| Numbers.StoiOfDigits | src/linux_parser.cpp:62 | stoi of a digit string: invalid_argument when empty, the value up to INT_MAX, out_of_range above |
| Numbers.SumFrom | src/linux_parser.cpp:112 | a chain of conversions that throws throws the exception of one of its conversions |
| Numbers.SumFromMeaning | src/linux_parser.cpp:112 | a chain of conversions succeeds exactly when every conversion does, with the total of the values; otherwise it fails with the exception of the first conversion that fails |
| Numbers.SumFromAppend | src/linux_parser.cpp:112 | summing a concatenation is summing the first part and continuing from its result |
| Numbers.SumFromShift | src/linux_parser.cpp:112 | the starting value only shifts a successful sum |
| LinuxParser.OperatingSystem | src/linux_parser.cpp:16-36 | the nested loops with in-place replacement return the name `OsName` gives; "" without a file; a found name holds no '_' |
| LinuxParser.Rewrite | src/linux_parser.cpp:23-25 | the three passes keep the length and map each character on its own: ' ' to '_', '=' and '"' to ' ', any other unchanged |
| LinuxParser.ScanLines | src/linux_parser.cpp:22-33 | a name the outer loop returns holds no '_' |
| LinuxParser.ScanLinesMeaning | src/linux_parser.cpp:22-33 | the nested loops return the first PRETTY_NAME pair's value with '_' turned back into spaces; failing that, the value of the last pair read, or the initial value when no pair was read |
| LinuxParser.ScanPairs | src/linux_parser.cpp:27-32 | a name the inner loop returns holds no '_'; otherwise it leaves `value` as it came in or holding a token of the line |
| LinuxParser.IndexOfKey | src/linux_parser.cpp:27-28 | the position found holds the key and no earlier pair does |
| LinuxParser.IndexOfKeyAppend | src/linux_parser.cpp:22-33 | the first key in two concatenated pair lists is found in the first list if it is there, otherwise after it |
| LinuxParser.ScanPairsMeaning | src/linux_parser.cpp:27-32 | the inner loop over one line returns the first PRETTY_NAME pair's value, otherwise leaves the last value read |
| LinuxParser.Pairs | src/linux_parser.cpp:27 | a line of `n` tokens gives `n / 2` complete key/value pairs |
| LinuxParser.PairsAt | src/linux_parser.cpp:27 | pair `i` of a line is its tokens at positions `2i` and `2i + 1` |
| LinuxParser.OsNameOfPrettyLine | src/linux_parser.cpp:20-31 | a first line `PRETTY_NAME="<name>"` followed by '\n' gives back the name exactly, whatever the later lines hold, for a non-empty name whose only whitespace is ' ' and that has no '_', '=' or '"' (an empty name makes no pair, so later lines decide) |
| LinuxParser.OsNameOfPrettyFile | src/linux_parser.cpp:20-31 | the same for a file that is only that line, with no final '\n' |
| LinuxParser.RewritePrettyLine | src/linux_parser.cpp:23-25 | the three passes turn `PRETTY_NAME="<name>"` into the key, two spaces, the name with '_' for its spaces, and a space |
| LinuxParser.PrettyLineTokens | src/linux_parser.cpp:26-27 | that rewritten line reads as exactly the key and the encoded name |
| LinuxParser.OsNameUbuntu | src/linux_parser.cpp:20-31 | the file `PRETTY_NAME="Ubuntu 20.04 LTS"` gives "Ubuntu 20.04 LTS" |
| LinuxParser.Kernel | src/linux_parser.cpp:39-49 | "" without a file, otherwise "" or a single whitespace-free token |
| LinuxParser.KernelOfLine | src/linux_parser.cpp:42-48 | the third word of the first line, or "" when it has fewer than three, both when the line ends the file and when '\n' and any text follow it |
| LinuxParser.MemoryUtilization | src/linux_parser.cpp:72-89 | the loop, carrying key and value across lines, computes `MemorySum`, the `MemScan` of the file's lines from "", "" and 0; Ok(0) without a file; failures are stof's exception |
| LinuxParser.MemScan | src/linux_parser.cpp:78-85 | the only exception that ends the loop is invalid_argument from stof |
| LinuxParser.MemScanWellFormed | src/linux_parser.cpp:78-85 | when every line has a key and a value, the scan is the sum of the values on the MemTotal: and MemFree: lines, each occurrence counted, other keys ignored |
| LinuxParser.MemoryUtilizationWellFormed | src/linux_parser.cpp:72-89 | the same for a whole file: the sum of the memory values, starting from 0 |
| LinuxParser.MemScanShortLine | src/linux_parser.cpp:80-84 | a line with fewer than two tokens leaves the value from the previous line; with a memory key it is added again |
| LinuxParser.MemScanSkip | src/linux_parser.cpp:82 | a line with another key adds nothing |
| LinuxParser.MemScanAdd | src/linux_parser.cpp:82-83 | a memory-key line whose value converts adds that value |
| LinuxParser.MemScanFail | src/linux_parser.cpp:83 | a memory-key line whose value does not convert ends with stof's exception |
| LinuxParser.UpTime | src/linux_parser.cpp:92-100 | always a long; 0 without a file |
| LinuxParser.UpTimeOfSeconds | src/linux_parser.cpp:97 | leading whitespace, then a decimal number, then any non-digit gives that number |
| LinuxParser.UpTimeExample | src/linux_parser.cpp:97 | "12345.67 54321.00" gives 12345 |
| LinuxParser.FirstLineFields | src/linux_parser.cpp:109-111 | field `k` of the extraction chain from `lo` is token `lo + k` of the first line, or "" when the line has no such token |
| LinuxParser.FieldsOfTokens | src/linux_parser.cpp:109-111 | fields wholly inside the first line are exactly its tokens `lo` to `hi - 1` |
| LinuxParser.Jiffies | src/linux_parser.cpp:103-115 | Ok(0) without a file |
| LinuxParser.ActiveJiffies | src/linux_parser.cpp:142-154 | Ok(0) without a file |
| LinuxParser.IdleJiffies | src/linux_parser.cpp:157-169 | Ok(0) without a file |
| LinuxParser.JiffiesSplit | src/linux_parser.cpp:103-169 | Jiffies succeeds exactly when ActiveJiffies and IdleJiffies both do, and is then their sum, for every file |
| LinuxParser.JiffiesOfTokens | src/linux_parser.cpp:103-169 | with at least six tokens on the first line, Jiffies, ActiveJiffies and IdleJiffies are the stol sums of tokens 1-5 (user to iowait), 1-3 (user, nice, system) and 4-5 (idle, iowait) |
| LinuxParser.JiffiesOfLine | src/linux_parser.cpp:109-112 | the same for a first line of words and separators, both when it ends the file and when '\n' and any text follow it |
| LinuxParser.JiffiesOfShortLine | src/linux_parser.cpp:111-112 | a first line of at most three tokens makes all three accessors throw, IdleJiffies with invalid_argument |
| LinuxParser.JiffiesOfUptimeFile | src/linux_parser.cpp:104 | the two-number uptime line makes all three accessors throw |
| LinuxParser.TimeFields | src/linux_parser.cpp:127-133 | the tokens at positions 13 to 16, as many as there are, in order |
| LinuxParser.TimeFieldsIgnoreOthers | src/linux_parser.cpp:127-133 | whatever the tokens before position 13 and after position 16 are, only those in between are converted |
| LinuxParser.ProcessActiveJiffies | src/linux_parser.cpp:119-138 | Ok(0) without a file; otherwise the stol sum of the time fields of the file's tokens |
| LinuxParser.SumTimeFields | src/linux_parser.cpp:124-135 | the counting loop with its break converts and adds exactly the time fields, in order, whatever the conversion |
| LinuxParser.TimeFieldsStep | src/linux_parser.cpp:127-134 | one turn of the loop: a token outside positions 13 to 16 is skipped, a time field is added or ends the loop with its exception |
| LinuxParser.ProcessJiffiesSum | src/linux_parser.cpp:119-138 | when every time field converts, the result is the total of their values |
| LinuxParser.CpuUtilization | src/linux_parser.cpp:172-184 | [] without a file; every element is non-empty and free of whitespace |
| LinuxParser.CpuUtilizationNormalises | src/linux_parser.cpp:177-181 | the first line is its fields with its whitespace runs around them; the single-space join replaces each inner run with one space and drops the outer ones |
| LinuxParser.CpuUtilizationOfLine | src/linux_parser.cpp:177-181 | a first line of words and separators yields exactly those words in order, both when the line ends the file and when '\n' and any text follow it |
| LinuxParser.CpuUtilizationOfJoin | src/linux_parser.cpp:177-181 | re-reading the single-space join of the fields gives the same fields |
| LinuxParser.PidNames | src/linux_parser.cpp:58-61 | every kept name is all digits |
| LinuxParser.PidNamesMembers | src/linux_parser.cpp:58-61 | a name is kept exactly when a directory entry has it and it is all digits |
| LinuxParser.PidNamesAppend | src/linux_parser.cpp:56-66 | the filter keeps listing order: filtering two parts is filtering each |
| LinuxParser.ConvertPids | src/linux_parser.cpp:62-63 | a successful conversion gives one pid per kept name, each the stoi of that name, in order |
| LinuxParser.ConvertPidsMeaning | src/linux_parser.cpp:62-63 | converting the kept names succeeds exactly when each is non-empty and at most INT_MAX, and then gives each name's value in order |
| LinuxParser.PidsStep | src/linux_parser.cpp:56-66 | one entry: a pid directory converts its name and appends it, any other entry is skipped |
| LinuxParser.Pids | src/linux_parser.cpp:52-69 | the loop pushing onto the vector returns the stoi of every kept name, in listing order, or the first exception |
| LinuxParser.TotalProcesses | src/linux_parser.cpp:187 | the stub always returns 0 |
| LinuxParser.RunningProcesses | src/linux_parser.cpp:190 | the stub always returns 0 |
| LinuxParser.Command | src/linux_parser.cpp:194 | the stub returns "" for every pid |
| LinuxParser.Ram | src/linux_parser.cpp:198 | the stub returns "" for every pid |
| LinuxParser.Uid | src/linux_parser.cpp:202 | the stub returns "" for every pid |
| LinuxParser.User | src/linux_parser.cpp:206 | the stub returns "" for every pid |
| LinuxParser.ProcessUpTime | src/linux_parser.cpp:210 | the stub returns 0 for every pid |

## Left out

- File and directory I/O (`std::ifstream`, `opendir`, `readdir`, `closedir`): file contents are parameters, and the directory listing is a sequence of entries. A failing `opendir` (a null `DIR*` handed to `readdir`) is not modelled.
- The path constants (`kProcDirectory`, `kOSPath`, `kStatFilename`, `kUptimeFilename`, ...): they come from `linux_parser.h`, which is not part of this model. They only decide which contents a caller passes.
- MemoryUtilization: a `float` accumulator and `std::stof` are modelled as integers. Only the integer part of each value is read. So `StofInteger` differs from `stof` on some tokens:
  - it reports `invalid_argument` for `.5`, `inf` or `nan`, where `stof` succeeds;
  - it yields 1 for `1e3`, where `stof` yields 1000;
  - it yields 0 for `0x1p3`, where `stof` yields 8.
  Float rounding and the float range (`out_of_range` from `stof`) are not modelled either.
- `UpTime` reads into a `long`. The stream's fail state after a saturated or failed extraction is not modelled, because the accessor never inspects it.
- Signed overflow of the `long` additions (undefined behaviour in C++) is not modelled: sums are unbounded integers.
- In `stol(a) + stol(b) + ...` C++ leaves the order of the calls unspecified. The model reports the exception of the leftmost failing call.
- Characters are read as C-locale bytes. Locales and multibyte encodings are not modelled. `isdigit` in the Pids filter is taken as '0' to '9'.
- The intended behaviour of the stub accessors (`TotalProcesses`, `RunningProcesses`, `Command`, `Ram`, `Uid`, `User`, `UpTime(pid)`): the code returns constants, and the model does too.
- A thrown exception escaping an accessor is represented as `Err` with the exception's kind; no C++ unwinding is modelled.
