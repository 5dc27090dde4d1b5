/** The accessors of LinuxParser (src/linux_parser.cpp): text parsers over
    `/proc`-style pseudo-files. Every file the C++ opens is a parameter
    `file: Option<string>` holding its whole contents, `None` when the stream
    did not open; a directory listing is a sequence of entries. Which path an
    accessor opens (kOSPath, kProcDirectory + kStatFilename, ...) only decides
    which contents the caller passes. */
module LinuxParser {
  import opened Wrappers
  import opened Text
  import opened Numbers

  // =====================================================================
  // OperatingSystem

  const PrettyNameKey: string := "PRETTY_NAME"

  /** The three `std::replace` passes over each line of the OS-release file:
      spaces become '_', then '=' and '"' become spaces. */
  function Rewrite(line: string): (r: string)
    ensures |r| == |line|
    ensures forall i :: 0 <= i < |line| ==> r[i] == RewriteChar(line[i])
  {
    Replace(Replace(Replace(line, ' ', '_'), '=', ' '), '"', ' ')
  }

  /** What the three passes make of one character. */
  function RewriteChar(c: char): char
  {
    if c == ' ' then '_' else if c == '=' || c == '"' then ' ' else c
  }

  /** How a scan for PRETTY_NAME ends: returning from inside the loop with the
      rewritten name, or running out of input with `value` as it was left. */
  datatype Scan = Found(name: string) | NotFound(value: string)

  /** The inner loop `while (linestream >> key >> value)` over the tokens of one
      rewritten line, `value` holding `value` on entry. Only a complete pair
      enters the body; a lone last token is read into `key` and then the loop
      ends with `value` unchanged. The value of `key` carried in from earlier
      lines is never inspected: the body only sees a freshly read key. */
  function ScanPairs(ts: seq<string>, value: string): (r: Scan)
    ensures r.Found? ==> '_' !in r.name
    ensures r.NotFound? ==> r.value == value || r.value in ts
    decreases |ts|
  {
    if |ts| < 2 then NotFound(value)
    else if ts[0] == PrettyNameKey then Found(Replace(ts[1], '_', ' '))
    else
      var r := ScanPairs(ts[2..], ts[1]);
      assert r.NotFound? && r.value in ts[2..] ==> r.value in ts;
      r
  }

  /** The outer `while (std::getline(filestream, line))` loop. */
  function ScanLines(lines: seq<string>, value: string): (r: Scan)
    ensures r.Found? ==> '_' !in r.name
  {
    if lines == [] then NotFound(value)
    else match ScanPairs(Tokens(Rewrite(lines[0])), value)
      case Found(n) => Found(n)
      case NotFound(v) => ScanLines(lines[1..], v)
  }

  function OsScan(file: Option<string>): Scan
  {
    match file
    case None => NotFound("")
    case Some(c) => ScanLines(Lines(c), "")
  }

  /** The string OperatingSystem returns: the name when PRETTY_NAME is found,
      otherwise whatever `value` was left holding. */
  function OsName(file: Option<string>): string
  {
    match OsScan(file)
    case Found(n) => n
    case NotFound(v) => v
  }

  /** The key/value pairs the inner loop reads from one line. */
  function Pairs(ts: seq<string>): (ps: seq<(string, string)>)
    ensures |ps| == |ts| / 2
    decreases |ts|
  {
    if |ts| < 2 then [] else [(ts[0], ts[1])] + Pairs(ts[2..])
  }

  /** Pair `i` is the tokens at positions `2 * i` and `2 * i + 1`: the
      key and the value of the `i`-th turn of the inner loop. */
  lemma {:induction false} PairsAt(ts: seq<string>)
    ensures forall i :: 0 <= i < |Pairs(ts)| ==> Pairs(ts)[i] == (ts[2 * i], ts[2 * i + 1])
    decreases |ts|
  {
    if |ts| >= 2 {
      var rest := ts[2..];
      PairsAt(rest);
      var ps := Pairs(ts);
      assert ps == [(ts[0], ts[1])] + Pairs(rest);
      forall i | 0 < i < |ps| ensures ps[i] == (ts[2 * i], ts[2 * i + 1]) {
        assert ps[i] == Pairs(rest)[i - 1];
        assert rest[2 * (i - 1)] == ts[2 * i] && rest[2 * (i - 1) + 1] == ts[2 * i + 1];
      }
    }
  }

  /** Every pair the OS-release scan reads, over all lines in order. */
  function AllPairs(lines: seq<string>): seq<(string, string)>
  {
    if lines == [] then [] else Pairs(Tokens(Rewrite(lines[0]))) + AllPairs(lines[1..])
  }

  /** Position of the first pair with key `key`; `|ps|` when there is none. */
  function IndexOfKey(ps: seq<(string, string)>, key: string): (k: nat)
    ensures k <= |ps|
    ensures k < |ps| ==> ps[k].0 == key
    ensures forall j :: 0 <= j < k ==> ps[j].0 != key
  {
    if ps == [] then 0
    else if ps[0].0 == key then 0
    else 1 + IndexOfKey(ps[1..], key)
  }

  /** The value of the last pair, `value` when there are none. */
  function LastValue(ps: seq<(string, string)>, value: string): string
  {
    if ps == [] then value else ps[|ps| - 1].1
  }

  /** What the OS-release scan means: it finds the first pair keyed
      PRETTY_NAME and yields its value with underscores turned into spaces;
      when no pair has that key, `value` is left holding the last pair's
      value. */
  function ScanMeaning(ps: seq<(string, string)>, value: string): Scan
  {
    var k := IndexOfKey(ps, PrettyNameKey);
    if k < |ps| then Found(Replace(ps[k].1, '_', ' ')) else NotFound(LastValue(ps, value))
  }

  lemma IndexOfKeyAppend(a: seq<(string, string)>, b: seq<(string, string)>, key: string)
    ensures IndexOfKey(a + b, key) ==
              if IndexOfKey(a, key) < |a| then IndexOfKey(a, key) else |a| + IndexOfKey(b, key)
    decreases |a|
  {
    if a == [] {
      assert a + b == b;
    } else {
      assert (a + b)[0] == a[0];
      assert (a + b)[1..] == a[1..] + b;
      IndexOfKeyAppend(a[1..], b, key);
    }
  }

  lemma {:induction false} ScanPairsMeaning(ts: seq<string>, value: string)
    ensures ScanPairs(ts, value) == ScanMeaning(Pairs(ts), value)
    decreases |ts|
  {
    if |ts| >= 2 && ts[0] != PrettyNameKey {
      ScanPairsMeaning(ts[2..], ts[1]);
      var ps := Pairs(ts[2..]);
      assert Pairs(ts) == [(ts[0], ts[1])] + ps;
      IndexOfKeyAppend([(ts[0], ts[1])], ps, PrettyNameKey);
      assert (Pairs(ts)[1..]) == ps;
    }
  }

  /** The nested loops of OperatingSystem scan the pairs of all lines as one
      sequence. */
  lemma {:induction false} ScanLinesMeaning(lines: seq<string>, value: string)
    ensures ScanLines(lines, value) == ScanMeaning(AllPairs(lines), value)
    decreases |lines|
  {
    if lines != [] {
      var ts := Tokens(Rewrite(lines[0]));
      var p0 := Pairs(ts);
      var rest := AllPairs(lines[1..]);
      ScanPairsMeaning(ts, value);
      IndexOfKeyAppend(p0, rest, PrettyNameKey);
      if IndexOfKey(p0, PrettyNameKey) == |p0| {
        ScanLinesMeaning(lines[1..], LastValue(p0, value));
        assert LastValue(p0 + rest, value) == LastValue(rest, LastValue(p0, value));
      } else {
        assert (p0 + rest)[IndexOfKey(p0, PrettyNameKey)] == p0[IndexOfKey(p0, PrettyNameKey)];
      }
    }
  }

  /** A name as it appears between the quotes of a PRETTY_NAME line: its only
      whitespace is ' ', and it holds no '_', '=' or '"' for the rewriting
      to confuse. */
  predicate QuotableName(name: string)
  {
    forall k :: 0 <= k < |name| ==>
      name[k] != '_' && name[k] != '=' && name[k] != '"' && (name[k] == ' ' || !IsSpace(name[k]))
  }

  /** A first line `PRETTY_NAME="<name>"` makes OperatingSystem return the
      name, its spaces restored, whatever the following lines hold. */
  lemma OsNameOfPrettyLine(name: string, rest: string)
    requires name != [] && QuotableName(name)
    ensures OsName(Some(PrettyNameKey + "=\"" + name + "\"" + "\n" + rest)) == name
  {
    var line := PrettyNameKey + "=\"" + name + "\"";
    var m := Replace(name, ' ', '_');
    RewritePrettyLine(name);
    PrettyLineTokens(m);
    assert '\n' !in line by {
      PrettyKeyFacts();
      assert '\n' !in name;
    }
    LinesCons(line, rest);
    ReplaceUndo(name, ' ', '_');
    assert ScanPairs([PrettyNameKey, m], "") == Found(name);
  }

  /** The same for an os-release file of that one line, with no final '\n'. */
  lemma OsNameOfPrettyFile(name: string)
    requires name != [] && QuotableName(name)
    ensures OsName(Some(PrettyNameKey + "=\"" + name + "\"")) == name
  {
    var line := PrettyNameKey + "=\"" + name + "\"";
    var m := Replace(name, ' ', '_');
    RewritePrettyLine(name);
    PrettyLineTokens(m);
    assert '\n' !in line by {
      PrettyKeyFacts();
      assert '\n' !in name;
    }
    LinesLast(line);
    ReplaceUndo(name, ' ', '_');
    assert ScanPairs([PrettyNameKey, m], "") == Found(name);
  }

  lemma PrettyKeyFacts()
    ensures ' ' !in PrettyNameKey && '=' !in PrettyNameKey && '"' !in PrettyNameKey
    ensures '\n' !in PrettyNameKey && IsWord(PrettyNameKey)
  {
  }

  /** The three rewriting passes turn `PRETTY_NAME="<name>"` into the key,
      two spaces, the name with its spaces turned into '_', and a space. */
  lemma RewritePrettyLine(name: string)
    requires QuotableName(name)
    ensures Rewrite(PrettyNameKey + "=\"" + name + "\"") ==
              PrettyNameKey + "  " + Replace(name, ' ', '_') + " "
  {
    var k, m := PrettyNameKey, Replace(name, ' ', '_');
    PrettyKeyFacts();
    assert '=' !in name && '"' !in name;
    ReplaceFour(k, "=\"", name, "\"", ' ', '_');
    ReplaceAbsent(k, ' ', '_');
    ReplaceAbsent("=\"", ' ', '_');
    ReplaceAbsent("\"", ' ', '_');
    ReplaceKeepsAbsent(name, ' ', '_', '=');
    ReplaceKeepsAbsent(name, ' ', '_', '"');
    ReplaceFour(k, "=\"", m, "\"", '=', ' ');
    ReplaceAbsent(k, '=', ' ');
    assert Replace("=\"", '=', ' ') == " \"";
    ReplaceAbsent(m, '=', ' ');
    ReplaceAbsent("\"", '=', ' ');
    ReplaceFour(k, " \"", m, "\"", '"', ' ');
    ReplaceAbsent(k, '"', ' ');
    assert Replace(" \"", '"', ' ') == "  ";
    ReplaceAbsent(m, '"', ' ');
    assert Replace("\"", '"', ' ') == " ";
  }

  /** The rewritten line reads as exactly the key and the name. */
  lemma PrettyLineTokens(m: string)
    requires IsWord(m)
    ensures Tokens(PrettyNameKey + "  " + m + " ") == [PrettyNameKey, m]
  {
    var gaps := ["", "  ", " "];
    PrettyKeyFacts();
    InterleaveTwo("", PrettyNameKey, "  ", m, " ");
    assert "" + PrettyNameKey == PrettyNameKey;
    assert Separators(gaps) by {
      assert AllSpace(gaps[0]) && AllSpace(gaps[1]) && AllSpace(gaps[2]);
    }
    TokensOfInterleave(gaps, [PrettyNameKey, m]);
  }

  /** The os-release line of Ubuntu 20.04. */
  lemma OsNameUbuntu()
    ensures OsName(Some("PRETTY_NAME=\"Ubuntu 20.04 LTS\"\n")) == "Ubuntu 20.04 LTS"
  {
    UbuntuLine();
    OsNameOfPrettyLine("Ubuntu 20.04 LTS", "");
  }

  lemma UbuntuLine()
    ensures QuotableName("Ubuntu 20.04 LTS")
    ensures "PRETTY_NAME=\"Ubuntu 20.04 LTS\"\n" == PrettyNameKey + "=\"" + "Ubuntu 20.04 LTS" + "\"" + "\n" + ""
  {
    UbuntuQuotable();
    UbuntuSpelling();
  }

  lemma UbuntuQuotable()
    ensures QuotableName("Ubuntu 20.04 LTS")
  {
  }

  lemma UbuntuSpelling()
    ensures "PRETTY_NAME=\"Ubuntu 20.04 LTS\"\n" == PrettyNameKey + "=\"" + "Ubuntu 20.04 LTS" + "\"" + "\n" + ""
  {
  }

  /** `LinuxParser::OperatingSystem` (:16-36). `key` and `value` are declared
      once, outside both loops, so a short line leaves them as they were. */
  method OperatingSystem(file: Option<string>) returns (name: string)
    ensures name == OsName(file)
    ensures file.None? ==> name == ""
    ensures OsScan(file).Found? ==> '_' !in name
  {
    var key, value := "", "";
    if file.None? {
      return value;
    }
    var lines := Lines(file.value);
    var i := 0;
    while i < |lines|
      invariant 0 <= i <= |lines|
      invariant OsScan(file) == ScanLines(lines[i..], value)
    {
      var line := lines[i];
      var buffer := new char[|line|](k requires 0 <= k < |line| => line[k]);
      assert buffer[..] == line;
      ReplaceInPlace(buffer, ' ', '_');
      ReplaceInPlace(buffer, '=', ' ');
      ReplaceInPlace(buffer, '"', ' ');
      var tokens := Tokens(buffer[..]);
      ghost var entry := value;
      assert lines[i..][0] == line && lines[i..][1..] == lines[i + 1..];
      var j := 0;
      while j + 1 < |tokens|
        invariant 0 <= j <= |tokens|
        invariant ScanPairs(tokens, entry) == ScanPairs(tokens[j..], value)
      {
        key, value := tokens[j], tokens[j + 1];
        if key == PrettyNameKey {
          var chars := new char[|value|](k requires 0 <= k < |value| => value[k]);
          assert chars[..] == value;
          ReplaceInPlace(chars, '_', ' ');
          return chars[..];
        }
        assert tokens[j..][2..] == tokens[j + 2..];
        j := j + 2;
      }
      if j < |tokens| {
        key := tokens[j];
      }
      i := i + 1;
    }
    return value;
  }

  // =====================================================================
  // Kernel

  /** `LinuxParser::Kernel` (:39-49): `linestream >> os >> version >> kernel`
      on the first line of the version file; `kernel` stays "" when the line
      has fewer than three tokens or the file did not open. */
  function Kernel(file: Option<string>): (release: string)
    ensures file.None? ==> release == ""
    ensures release == "" || IsWord(release)
  {
    match file
    case None => ""
    case Some(c) => Extracted(Tokens(FirstLine(c)), 2, "")
  }

  /** On a first line made of words and whitespace, Kernel returns the third
      word, or "" when there are fewer than three. */
  lemma KernelOfLine(gaps: seq<string>, ws: seq<string>, rest: string)
    requires |gaps| == |ws| + 1
    requires Separators(gaps) && OnOneLine(gaps) && AllWords(ws)
    ensures Kernel(Some(Interleave(gaps, ws) + "\n" + rest)) == if |ws| >= 3 then ws[2] else ""
    ensures Kernel(Some(Interleave(gaps, ws))) == if |ws| >= 3 then ws[2] else ""
  {
    TokensOfFirstLine(gaps, ws, rest);
  }

  // =====================================================================
  // MemoryUtilization

  const MemTotalKey: string := "MemTotal:"
  const MemFreeKey: string := "MemFree:"

  predicate IsMemoryKey(key: string)
  {
    key == MemTotalKey || key == MemFreeKey
  }

  /** The loop of MemoryUtilization from the `key`, `value` and running sum
      it has reached. Each line does `is >> key >> value` into the variables
      carried from the line before, then adds `stof(value)` when `key` is one
      of the two memory keys. */
  function MemScan(lines: seq<string>, key: string, value: string, sum: int): (r: Result<int>)
    ensures r.Err? ==> r.error == InvalidArgument
    decreases |lines|
  {
    if lines == [] then Ok(sum)
    else
      var ts := Tokens(lines[0]);
      var k := Extracted(ts, 0, key);
      var v := Extracted(ts, 1, value);
      if IsMemoryKey(k) then
        match StofInteger(v)
        case Err(e) => Err(e)
        case Ok(x) => MemScan(lines[1..], k, v, sum + x)
      else MemScan(lines[1..], k, v, sum)
  }

  /** What MemoryUtilization computes from the memory-info file. */
  function MemorySum(file: Option<string>): Result<int>
  {
    match file
    case None => Ok(0)
    case Some(c) => MemScan(Lines(c), "", "", 0)
  }

  /** `LinuxParser::MemoryUtilization` (:72-89), over integers. */
  method MemoryUtilization(file: Option<string>) returns (r: Result<int>)
    ensures r == MemorySum(file)
    ensures file.None? ==> r == Ok(0)
  {
    var key, value := "", "";
    var memoryUtilization := 0;
    if file.Some? {
      var lines := Lines(file.value);
      var i := 0;
      while i < |lines|
        invariant 0 <= i <= |lines|
        invariant MemorySum(file) == MemScan(lines[i..], key, value, memoryUtilization)
      {
        var ts := Tokens(lines[i]);
        if |ts| > 0 {
          key := ts[0];
        }
        if |ts| > 1 {
          value := ts[1];
        }
        assert lines[i..][0] == lines[i] && lines[i..][1..] == lines[i + 1..];
        if key == MemTotalKey || key == MemFreeKey {
          var x := StofInteger(value);
          if x.Err? {
            return Err(x.error);
          }
          memoryUtilization := memoryUtilization + x.value;
        }
        i := i + 1;
      }
    }
    return Ok(memoryUtilization);
  }

  /** Every line has a key and a value. */
  predicate WellFormedLines(lines: seq<string>)
  {
    forall i :: 0 <= i < |lines| ==> |Tokens(lines[i])| >= 2
  }

  /** The value tokens of the lines whose first token is a memory key, every
      occurrence in order. */
  function MemoryValues(lines: seq<string>): seq<string>
  {
    if lines == [] then []
    else
      var ts := Tokens(lines[0]);
      (if |ts| >= 2 && IsMemoryKey(ts[0]) then [ts[1]] else []) + MemoryValues(lines[1..])
  }

  /** When every line has a key and a value, MemoryUtilization is the sum of
      the values on the MemTotal: and MemFree: lines, each occurrence counted;
      other keys contribute nothing. */
  lemma {:induction false} MemScanWellFormed(lines: seq<string>, key: string, value: string, sum: int)
    requires WellFormedLines(lines)
    ensures MemScan(lines, key, value, sum) == SumFrom(StofInteger, MemoryValues(lines), sum)
    decreases |lines|
  {
    if lines != [] {
      var ts := Tokens(lines[0]);
      WellFormedTail(lines);
      forall acc ensures MemScan(lines[1..], ts[0], ts[1], acc) == SumFrom(StofInteger, MemoryValues(lines[1..]), acc) {
        MemScanWellFormed(lines[1..], ts[0], ts[1], acc);
      }
      WellFormedStep(lines, key, value, sum);
    }
  }

  /** The step of MemScanWellFormed over the first line, given the claim for
      the remaining lines from the key and value that line leaves. */
  lemma WellFormedStep(lines: seq<string>, key: string, value: string, sum: int)
    requires lines != [] && |Tokens(lines[0])| >= 2
    requires forall acc :: MemScan(lines[1..], Tokens(lines[0])[0], Tokens(lines[0])[1], acc) ==
                           SumFrom(StofInteger, MemoryValues(lines[1..]), acc)
    ensures MemScan(lines, key, value, sum) == SumFrom(StofInteger, MemoryValues(lines), sum)
  {
    var ts := Tokens(lines[0]);
    if !IsMemoryKey(ts[0]) {
      SkipThenWellFormed(lines, key, value, sum);
    } else if StofInteger(ts[1]).Ok? {
      AddThenWellFormed(lines, key, value, sum, StofInteger(ts[1]).value);
    } else {
      MemScanFail(lines, key, value, sum, StofInteger(ts[1]).error);
    }
  }

  /** The step of MemScanWellFormed past a line with another key. */
  lemma SkipThenWellFormed(lines: seq<string>, key: string, value: string, sum: int)
    requires lines != [] && |Tokens(lines[0])| >= 2 && !IsMemoryKey(Tokens(lines[0])[0])
    requires MemScan(lines[1..], Tokens(lines[0])[0], Tokens(lines[0])[1], sum) ==
               SumFrom(StofInteger, MemoryValues(lines[1..]), sum)
    ensures MemScan(lines, key, value, sum) == SumFrom(StofInteger, MemoryValues(lines), sum)
  {
    MemScanSkip(lines, key, value, sum);
  }

  /** The step of MemScanWellFormed past a memory-key line adding `x`. */
  lemma AddThenWellFormed(lines: seq<string>, key: string, value: string, sum: int, x: int)
    requires lines != [] && |Tokens(lines[0])| >= 2 && IsMemoryKey(Tokens(lines[0])[0])
    requires StofInteger(Tokens(lines[0])[1]) == Ok(x)
    requires MemScan(lines[1..], Tokens(lines[0])[0], Tokens(lines[0])[1], sum + x) ==
               SumFrom(StofInteger, MemoryValues(lines[1..]), sum + x)
    ensures MemScan(lines, key, value, sum) == SumFrom(StofInteger, MemoryValues(lines), sum)
  {
    MemScanAdd(lines, key, value, sum, x);
  }

  lemma WellFormedTail(lines: seq<string>)
    requires lines != [] && WellFormedLines(lines)
    ensures |Tokens(lines[0])| >= 2 && WellFormedLines(lines[1..])
  {
    var tail := lines[1..];
    forall i | 0 <= i < |tail| ensures |Tokens(tail[i])| >= 2 {
      assert tail[i] == lines[i + 1];
    }
  }

  /** A well-formed line with another key: MemScan carries the line's key and
      value on, and MemoryValues takes nothing from it. */
  lemma MemScanSkip(lines: seq<string>, key: string, value: string, sum: int)
    requires lines != [] && |Tokens(lines[0])| >= 2 && !IsMemoryKey(Tokens(lines[0])[0])
    ensures var ts := Tokens(lines[0]);
            MemScan(lines, key, value, sum) == MemScan(lines[1..], ts[0], ts[1], sum) &&
            MemoryValues(lines) == MemoryValues(lines[1..])
  {
    MemoryValuesHead(lines);
    MemScanUnfold(lines, key, value, sum);
  }

  /** A well-formed memory-key line whose value converts to `x`: both sides
      add `x`. */
  lemma MemScanAdd(lines: seq<string>, key: string, value: string, sum: int, x: int)
    requires lines != [] && |Tokens(lines[0])| >= 2 && IsMemoryKey(Tokens(lines[0])[0])
    requires StofInteger(Tokens(lines[0])[1]) == Ok(x)
    ensures var ts := Tokens(lines[0]);
            MemScan(lines, key, value, sum) == MemScan(lines[1..], ts[0], ts[1], sum + x) &&
            SumFrom(StofInteger, MemoryValues(lines), sum) == SumFrom(StofInteger, MemoryValues(lines[1..]), sum + x)
  {
    MemScanAddScan(lines, key, value, sum, x);
    MemScanAddSum(lines, sum, x);
  }

  lemma MemScanAddScan(lines: seq<string>, key: string, value: string, sum: int, x: int)
    requires lines != [] && |Tokens(lines[0])| >= 2 && IsMemoryKey(Tokens(lines[0])[0])
    requires StofInteger(Tokens(lines[0])[1]) == Ok(x)
    ensures MemScan(lines, key, value, sum) == MemScan(lines[1..], Tokens(lines[0])[0], Tokens(lines[0])[1], sum + x)
  {
    MemScanUnfold(lines, key, value, sum);
  }

  lemma MemScanAddSum(lines: seq<string>, sum: int, x: int)
    requires lines != [] && |Tokens(lines[0])| >= 2 && IsMemoryKey(Tokens(lines[0])[0])
    requires StofInteger(Tokens(lines[0])[1]) == Ok(x)
    ensures SumFrom(StofInteger, MemoryValues(lines), sum) == SumFrom(StofInteger, MemoryValues(lines[1..]), sum + x)
  {
    var v, rest := Tokens(lines[0])[1], MemoryValues(lines[1..]);
    MemoryValuesHead(lines);
    SumFromPrepend(StofInteger, v, rest, sum);
  }

  /** A well-formed memory-key line whose value does not convert: both sides
      stop with the conversion's exception. */
  lemma MemScanFail(lines: seq<string>, key: string, value: string, sum: int, e: Exception)
    requires lines != [] && |Tokens(lines[0])| >= 2 && IsMemoryKey(Tokens(lines[0])[0])
    requires StofInteger(Tokens(lines[0])[1]) == Err(e)
    ensures MemScan(lines, key, value, sum) == Err(e)
    ensures SumFrom(StofInteger, MemoryValues(lines), sum) == Err(e)
  {
    var ts := Tokens(lines[0]);
    MemoryValuesHead(lines);
    MemScanUnfold(lines, key, value, sum);
    SumFromPrepend(StofInteger, ts[1], MemoryValues(lines[1..]), sum);
  }

  lemma MemoryValuesHead(lines: seq<string>)
    requires lines != [] && |Tokens(lines[0])| >= 2
    ensures var ts := Tokens(lines[0]);
            MemoryValues(lines) == if IsMemoryKey(ts[0]) then [ts[1]] + MemoryValues(lines[1..]) else MemoryValues(lines[1..])
  {
    assert [] + MemoryValues(lines[1..]) == MemoryValues(lines[1..]);
  }

  lemma MemScanUnfold(lines: seq<string>, key: string, value: string, sum: int)
    requires lines != [] && |Tokens(lines[0])| >= 2
    ensures var ts := Tokens(lines[0]);
            MemScan(lines, key, value, sum) ==
              if IsMemoryKey(ts[0]) then
                match StofInteger(ts[1])
                case Err(e) => Err(e)
                case Ok(x) => MemScan(lines[1..], ts[0], ts[1], sum + x)
              else MemScan(lines[1..], ts[0], ts[1], sum)
  {
    var ts := Tokens(lines[0]);
    assert Extracted(ts, 0, key) == ts[0] && Extracted(ts, 1, value) == ts[1];
  }

  lemma MemoryUtilizationWellFormed(c: string)
    requires WellFormedLines(Lines(c))
    ensures MemorySum(Some(c)) == SumFrom(StofInteger, MemoryValues(Lines(c)), 0)
  {
    MemScanWellFormed(Lines(c), "", "", 0);
  }

  /** A line with fewer than two tokens leaves `value` holding the previous
      line's value: after a `MemTotal:` or `MemFree:` line, a blank line adds
      that value a second time, and a line holding only a key pairs it with
      the previous line's value. */
  lemma MemScanShortLine(lines: seq<string>, key: string, value: string, sum: int)
    requires lines != [] && |Tokens(lines[0])| < 2
    ensures var k := if Tokens(lines[0]) == [] then key else Tokens(lines[0])[0];
            MemScan(lines, key, value, sum) ==
              if IsMemoryKey(k) then
                match StofInteger(value)
                case Err(e) => Err(e)
                case Ok(x) => MemScan(lines[1..], k, value, sum + x)
              else MemScan(lines[1..], k, value, sum)
  {
    var ts := Tokens(lines[0]);
    assert Extracted(ts, 1, value) == value;
  }

  // =====================================================================
  // UpTime

  /** `LinuxParser::UpTime()` (:92-100): `file >> up_time` into a `long`
      that starts at 0; the fractional part stops the extraction. */
  function UpTime(file: Option<string>): (seconds: int)
    ensures LongMin <= seconds <= LongMax
    ensures file.None? ==> seconds == 0
  {
    match file
    case None => 0
    case Some(c) => ExtractLong(c)
  }

  /** The leading integer of the uptime file, after any whitespace, whatever
      follows it ("12345.67 54321.00" gives 12345). */
  lemma UpTimeOfSeconds(ws: string, n: nat, rest: string)
    requires AllSpace(ws) && n <= LongMax
    requires StopsDigits(rest)
    ensures UpTime(Some(ws + DecimalString(n) + rest)) == n
  {
    assert ws + DecimalString(n) + rest == ws + (DecimalString(n) + rest);
    LeadingIntegerAfterSpace(ws, DecimalString(n) + rest);
    DecimalValueOfString(n);
    LeadingDigits(DecimalString(n), rest);
  }

  lemma UpTimeExample()
    ensures UpTime(Some("12345.67 54321.00\n")) == 12345
  {
    ExampleUptimeSpelling();
    UpTimeOfSeconds("", 12345, ".67 54321.00\n");
  }

  lemma ExampleUptimeSpelling()
    ensures "12345.67 54321.00\n" == "" + DecimalString(12345) + ".67 54321.00\n"
  {
    assert DecimalString(1) == "1";
    assert DecimalString(12) == "12";
    assert DecimalString(123) == "123";
    assert DecimalString(1234) == "1234";
    assert DecimalString(12345) == "12345";
  }

  // =====================================================================
  // Jiffies, ActiveJiffies(), IdleJiffies

  /** The strings in positions `lo` to `hi - 1` of
      `is >> cpu >> user >> nice >> system >> idle >> iowait` over the first
      line, each "" when the line runs out first. */
  function FirstLineFields(c: string, lo: nat, hi: nat): (fs: seq<string>)
    requires lo <= hi
    ensures |fs| == hi - lo
    ensures forall k :: 0 <= k < hi - lo ==>
              fs[k] == if lo + k < |Tokens(FirstLine(c))| then Tokens(FirstLine(c))[lo + k] else ""
  {
    var ts := Tokens(FirstLine(c));
    var fs := seq(hi - lo, k requires 0 <= k < hi - lo => Extracted(ts, lo + k, ""));
    assert forall k :: 0 <= k < hi - lo ==> fs[k] == Extracted(ts, lo + k, "");
    fs
  }

  /** `LinuxParser::Jiffies` (:103-115): user + nice + system + idle + iowait,
      the tokens at positions 1 to 5 of the first line of the file opened as
      kProcDirectory + kUptimeFilename, each through std::stol. */
  function Jiffies(file: Option<string>): (r: Result<int>)
    ensures file.None? ==> r == Ok(0)
  {
    match file
    case None => Ok(0)
    case Some(c) => SumFrom(Stol, FirstLineFields(c, 1, 6), 0)
  }

  /** `LinuxParser::ActiveJiffies()` (:142-154): user + nice + system, tokens
      1 to 3 of the same first line. */
  function ActiveJiffies(file: Option<string>): (r: Result<int>)
    ensures file.None? ==> r == Ok(0)
  {
    match file
    case None => Ok(0)
    case Some(c) => SumFrom(Stol, FirstLineFields(c, 1, 4), 0)
  }

  /** `LinuxParser::IdleJiffies` (:157-169): idle + iowait, tokens 4 and 5. */
  function IdleJiffies(file: Option<string>): (r: Result<int>)
    ensures file.None? ==> r == Ok(0)
  {
    match file
    case None => Ok(0)
    case Some(c) => SumFrom(Stol, FirstLineFields(c, 4, 6), 0)
  }

  /** Fields wholly inside the first line are its tokens `lo` to `hi - 1`. */
  lemma FieldsOfTokens(c: string, lo: nat, hi: nat, ws: seq<string>)
    requires lo <= hi <= |ws| && Tokens(FirstLine(c)) == ws
    ensures FirstLineFields(c, lo, hi) == ws[lo..hi]
  {
    var fs := FirstLineFields(c, lo, hi);
    forall k | 0 <= k < hi - lo ensures fs[k] == ws[lo..hi][k] {
    }
  }

  /** When the first line holds at least the label and five counters, the
      three accessors are the stol sums of counters 1-5, 1-3 and 4-5. */
  lemma JiffiesOfTokens(c: string, ws: seq<string>)
    requires Tokens(FirstLine(c)) == ws && |ws| >= 6
    ensures Jiffies(Some(c)) == SumFrom(Stol, ws[1..6], 0)
    ensures ActiveJiffies(Some(c)) == SumFrom(Stol, ws[1..4], 0)
    ensures IdleJiffies(Some(c)) == SumFrom(Stol, ws[4..6], 0)
  {
    FieldsOfTokens(c, 1, 6, ws);
    FieldsOfTokens(c, 1, 4, ws);
    FieldsOfTokens(c, 4, 6, ws);
  }

  /** A first line of words, however spaced and whether or not '\n' and more
      text follow it, gives the sums of its counters at positions 1-5, 1-3 and
      4-5. */
  lemma JiffiesOfLine(gaps: seq<string>, ws: seq<string>, rest: string)
    requires |gaps| == |ws| + 1
    requires Separators(gaps) && OnOneLine(gaps) && AllWords(ws) && |ws| >= 6
    ensures Jiffies(Some(Interleave(gaps, ws) + "\n" + rest)) == SumFrom(Stol, ws[1..6], 0)
    ensures ActiveJiffies(Some(Interleave(gaps, ws) + "\n" + rest)) == SumFrom(Stol, ws[1..4], 0)
    ensures IdleJiffies(Some(Interleave(gaps, ws) + "\n" + rest)) == SumFrom(Stol, ws[4..6], 0)
    ensures Jiffies(Some(Interleave(gaps, ws))) == SumFrom(Stol, ws[1..6], 0)
    ensures ActiveJiffies(Some(Interleave(gaps, ws))) == SumFrom(Stol, ws[1..4], 0)
    ensures IdleJiffies(Some(Interleave(gaps, ws))) == SumFrom(Stol, ws[4..6], 0)
  {
    TokensOfFirstLine(gaps, ws, rest);
    JiffiesOfTokens(Interleave(gaps, ws) + "\n" + rest, ws);
    JiffiesOfTokens(Interleave(gaps, ws), ws);
  }

  /** Jiffies succeeds exactly when ActiveJiffies and IdleJiffies both do, and
      is then their sum; this holds for every file, present or not. */
  lemma JiffiesSplit(file: Option<string>)
    ensures Jiffies(file).Ok? <==> ActiveJiffies(file).Ok? && IdleJiffies(file).Ok?
    ensures Jiffies(file).Ok? ==> Jiffies(file).value == ActiveJiffies(file).value + IdleJiffies(file).value
  {
    if file.Some? {
      var c := file.value;
      assert FirstLineFields(c, 1, 6) == FirstLineFields(c, 1, 4) + FirstLineFields(c, 4, 6);
      SumFromAppend(Stol, FirstLineFields(c, 1, 4), FirstLineFields(c, 4, 6), 0);
      match SumFrom(Stol, FirstLineFields(c, 1, 4), 0)
      case Err(e) =>
      case Ok(x) => SumFromShift(Stol, FirstLineFields(c, 4, 6), x);
    }
  }

  /** The uptime file's first line holds two numbers, so the missing fields are
      "" and std::stol("") throws: all three accessors fail on it, IdleJiffies
      with invalid_argument. */
  lemma JiffiesOfShortLine(c: string)
    requires |Tokens(FirstLine(c))| <= 3
    ensures Jiffies(Some(c)).Err? && ActiveJiffies(Some(c)).Err?
    ensures IdleJiffies(Some(c)) == Err(InvalidArgument)
  {
    var ts := Tokens(FirstLine(c));
    var a := FirstLineFields(c, 1, 4);
    var d := FirstLineFields(c, 4, 6);
    StolOfEmpty();
    assert a[2] == Extracted(ts, 3, "") == "";
    assert !AllConvert(Stol, a) by {
      assert Stol(a[2]).Err?;
    }
    SumFromMeaning(Stol, a, 0);
    assert d[0] == Extracted(ts, 4, "") == "";
    SumFromCons(Stol, d, 0);
    JiffiesSplit(Some(c));
  }

  /** A real uptime file: "350735.47 234388.90". */
  lemma JiffiesOfUptimeFile()
    ensures Jiffies(Some("350735.47 234388.90\n")).Err?
    ensures ActiveJiffies(Some("350735.47 234388.90\n")).Err?
    ensures IdleJiffies(Some("350735.47 234388.90\n")) == Err(InvalidArgument)
  {
    UptimeFileTokens();
    JiffiesOfShortLine("350735.47 234388.90\n");
  }

  lemma UptimeFileTokens()
    ensures |Tokens(FirstLine("350735.47 234388.90\n"))| == 2
  {
    var gaps, ws := ["", " ", ""], ["350735.47", "234388.90"];
    UptimeFileWords();
    assert "350735.47 234388.90\n" == Interleave(gaps, ws) + "\n" + "";
    TokensOfFirstLine(gaps, ws, "");
  }

  lemma UptimeFileWords()
    ensures Separators(["", " ", ""]) && OnOneLine(["", " ", ""])
    ensures AllWords(["350735.47", "234388.90"])
  {
  }

  // =====================================================================
  // ActiveJiffies(int pid)

  /** The tokens ActiveJiffies(pid) converts: 0-based positions 13 to 16
      (utime, stime, cutime, cstime), as many of them as there are. */
  function TimeFields(ts: seq<string>): (fs: seq<string>)
    ensures |fs| == if |ts| <= 13 then 0 else if |ts| >= 17 then 4 else |ts| - 13
    ensures forall k :: 0 <= k < |fs| ==> fs[k] == ts[13 + k]
  {
    if |ts| <= 13 then [] else ts[13..if |ts| < 17 then |ts| else 17]
  }

  /** Tokens before position 13 and after position 16 are never converted, so
      nothing there can change the result or make it fail. */
  lemma TimeFieldsIgnoreOthers(before: seq<string>, times: seq<string>, after: seq<string>)
    requires |before| == 13 && |times| <= 4
    requires |times| < 4 ==> after == []
    ensures TimeFields(before + times + after) == times
  {
    var ts := before + times + after;
    assert ts[13..13 + |times|] == times;
  }

  /** `LinuxParser::ActiveJiffies(int pid)` (:119-138), over the contents of
      that process's stat file: a counting loop over every token of the
      file that stops after position 16. */
  method ProcessActiveJiffies(file: Option<string>) returns (r: Result<int>)
    ensures file.None? ==> r == Ok(0)
    ensures file.Some? ==> r == SumFrom(Stol, TimeFields(Tokens(file.value)), 0)
  {
    if file.None? {
      return Ok(0);
    }
    r := SumTimeFields(Stol, Tokens(file.value));
  }

  /** The `while (file >> component)` loop of ActiveJiffies(pid), over the
      tokens the stream yields: it stops after position 16 and adds the
      tokens at positions 13 to 16 through `conv`, which ActiveJiffies(pid)
      fixes to std::stol. */
  method SumTimeFields(conv: string -> Result<int>, components: seq<string>) returns (r: Result<int>)
    ensures r == SumFrom(conv, TimeFields(components), 0)
  {
    var activeJiffies := 0;
    ghost var fs := TimeFields(components);
    ghost var total := SumFrom(conv, fs, 0);
    assert fs[Added(0)..] == fs;
    var i := 0;
    while i < |components|
      invariant 0 <= i <= |components| && i <= 17
      invariant Added(i) <= |fs|
      invariant total == SumFrom(conv, fs[Added(i)..], activeJiffies)
    {
      var component := components[i];
      if i > 16 {
        break;
      }
      if 13 <= i <= 16 {
        var x := conv(component);
        if x.Err? {
          TimeFieldsStep(conv, components, i, x, activeJiffies);
          return Err(x.error);
        }
        TimeFieldsNext(conv, components, i, x.value, activeJiffies, total);
        activeJiffies := activeJiffies + x.value;
      } else {
        TimeFieldsNext(conv, components, i, 0, activeJiffies, total);
      }
      i := i + 1;
    }
    assert fs[Added(i)..] == [];
    return Ok(activeJiffies);
  }

  /** Reading token `i` skips it when it is not a time field; when it is, and
      converts to `x`, the rest of the sum starts one field later. */
  lemma TimeFieldsStep(conv: string -> Result<int>, components: seq<string>, i: nat, x: Result<int>, acc: int)
    requires i < |components| && i <= 16
    requires 13 <= i ==> conv(components[i]) == x
    ensures Added(i + 1) <= |TimeFields(components)|
    ensures i < 13 ==> Added(i + 1) == Added(i)
    ensures 13 <= i && x.Err? ==> SumFrom(conv, TimeFields(components)[Added(i)..], acc) == Err(x.error)
    ensures 13 <= i && x.Ok? ==>
              SumFrom(conv, TimeFields(components)[Added(i)..], acc) ==
              SumFrom(conv, TimeFields(components)[Added(i + 1)..], acc + x.value)
  {
    if 13 <= i {
      assert Added(i) == i - 13 && Added(i + 1) == i - 12;
      TimeFieldAt(conv, components, i, acc);
    }
  }

  /** Token `i`, a time field, is field `i - 13` of the sum. */
  lemma TimeFieldAt(conv: string -> Result<int>, components: seq<string>, i: nat, acc: int)
    requires 13 <= i <= 16 && i < |components|
    ensures i - 12 <= |TimeFields(components)|
    ensures conv(components[i]).Err? ==>
              SumFrom(conv, TimeFields(components)[i - 13..], acc) == Err(conv(components[i]).error)
    ensures conv(components[i]).Ok? ==>
              SumFrom(conv, TimeFields(components)[i - 13..], acc) ==
              SumFrom(conv, TimeFields(components)[i - 12..], acc + conv(components[i]).value)
  {
    SumFromAt(conv, TimeFields(components), i - 13, components[i], acc);
  }

  /** A turn of the loop that goes on: the rest of the sum is the sum from one
      step later, after adding `x` when token `i` is a time field. */
  lemma TimeFieldsNext(conv: string -> Result<int>, components: seq<string>, i: nat, x: int, acc: int, total: Result<int>)
    requires i < |components| && i <= 16
    requires 13 <= i ==> conv(components[i]) == Ok(x)
    requires total == SumFrom(conv, TimeFields(components)[Added(i)..], acc)
    ensures Added(i + 1) <= |TimeFields(components)|
    ensures total == SumFrom(conv, TimeFields(components)[Added(i + 1)..], if 13 <= i then acc + x else acc)
  {
    TimeFieldsStep(conv, components, i, Ok(x), acc);
  }

  /** How many time fields the loop has added once it has read `i` tokens. */
  function Added(i: nat): nat
  {
    if i <= 13 then 0 else i - 13
  }

  /** With its four time fields present and parsable, ActiveJiffies(pid) is
      their sum; with fewer, the sum of those present. */
  lemma ProcessJiffiesSum(ts: seq<string>)
    requires AllConvert(Stol, TimeFields(ts))
    ensures SumFrom(Stol, TimeFields(ts), 0) == Ok(Total(Converted(Stol, TimeFields(ts))))
  {
    SumFromMeaning(Stol, TimeFields(ts), 0);
  }

  // =====================================================================
  // CpuUtilization

  /** `LinuxParser::CpuUtilization` (:172-184): every whitespace token of the
      stat file's first line, copied in order by an istream_iterator. */
  function CpuUtilization(file: Option<string>): (fields: seq<string>)
    ensures file.None? ==> fields == []
    ensures AllWords(fields)
  {
    match file
    case None => []
    case Some(c) => Tokens(FirstLine(c))
  }

  /** The first line is its tokens with runs of whitespace around and between
      them; joining the tokens with single spaces puts exactly one space in
      each inner run and drops the outer ones. */
  lemma CpuUtilizationNormalises(c: string)
    ensures var fields := CpuUtilization(Some(c));
            var gaps := Gaps(FirstLine(c));
            |gaps| == |fields| + 1 && Separators(gaps) &&
            Interleave(gaps, fields) == FirstLine(c) &&
            Join(fields, " ") == Interleave(SingleSpaced(|fields|), fields)
  {
    Decompose(FirstLine(c));
    JoinIsSingleSpaced(CpuUtilization(Some(c)));
  }

  /** A first line of words, however it is spaced and whether or not a '\n'
      ends it, yields exactly those words (a well-formed `cpu` line: the label
      and ten counters). */
  lemma CpuUtilizationOfLine(gaps: seq<string>, ws: seq<string>, rest: string)
    requires |gaps| == |ws| + 1
    requires Separators(gaps) && OnOneLine(gaps) && AllWords(ws)
    ensures CpuUtilization(Some(Interleave(gaps, ws) + "\n" + rest)) == ws
    ensures CpuUtilization(Some(Interleave(gaps, ws))) == ws
  {
    TokensOfFirstLine(gaps, ws, rest);
  }

  /** Re-reading a single-space join of the fields gives the same fields. */
  lemma CpuUtilizationOfJoin(c: string)
    ensures CpuUtilization(Some(Join(CpuUtilization(Some(c)), " "))) == CpuUtilization(Some(c))
  {
    var fields := CpuUtilization(Some(c));
    JoinIsSingleSpaced(fields);
    SingleSpacedSeparates(|fields|);
    var gaps := SingleSpaced(|fields|);
    assert OnOneLine(gaps) by {
      forall i | 0 <= i < |gaps| ensures '\n' !in gaps[i] {
        SingleSpacedAt(|fields|, i);
      }
    }
    TokensOfFirstLine(gaps, fields, "");
  }

  // =====================================================================
  // Pids

  /** One entry of the /proc directory listing: its name and whether its
      d_type is DT_DIR. */
  datatype DirEntry = DirEntry(name: string, isDirectory: bool)

  predicate IsPidEntry(e: DirEntry)
  {
    e.isDirectory && AllDigits(e.name)
  }

  /** The names the filter keeps, in listing order. */
  function PidNames(entries: seq<DirEntry>): (names: seq<string>)
    ensures forall k :: 0 <= k < |names| ==> AllDigits(names[k])
  {
    if entries == [] then []
    else (if IsPidEntry(entries[0]) then [entries[0].name] else []) + PidNames(entries[1..])
  }

  /** The filter keeps exactly the directory entries named by digits... */
  lemma {:induction false} PidNamesMembers(entries: seq<DirEntry>, name: string)
    ensures name in PidNames(entries) <==> DirEntry(name, true) in entries && AllDigits(name)
  {
    if entries != [] {
      PidNamesMembers(entries[1..], name);
      assert entries == [entries[0]] + entries[1..];
    }
  }

  /** ...and preserves their order: filtering a listing in two parts is
      filtering each part. */
  lemma {:induction false} PidNamesAppend(a: seq<DirEntry>, b: seq<DirEntry>)
    ensures PidNames(a + b) == PidNames(a) + PidNames(b)
  {
    if a == [] {
      assert a + b == b;
    } else {
      assert (a + b)[0] == a[0] && (a + b)[1..] == a[1..] + b;
      PidNamesAppend(a[1..], b);
    }
  }

  /** std::stoi over the kept names in order, the first exception escaping. */
  function ConvertPids(names: seq<string>): (r: Result<seq<int>>)
    ensures r.Ok? ==> |r.value| == |names|
    ensures r.Ok? ==> forall k :: 0 <= k < |names| ==> Stoi(names[k]) == Ok(r.value[k])
  {
    if names == [] then Ok([])
    else match Stoi(names[0])
      case Err(e) => Err(e)
      case Ok(p) =>
        match ConvertPids(names[1..])
        case Err(e) => Err(e)
        case Ok(ps) =>
          assert forall k :: 0 < k < |names| ==> names[k] == names[1..][k - 1];
          Ok([p] + ps)
  }

  /** A name of digits converts when it is not empty and at most INT_MAX. */
  predicate ConvertibleName(name: string)
    requires AllDigits(name)
  {
    name != [] && DecimalValue(name) <= IntMax
  }

  /** The conversion succeeds exactly when every kept name is convertible, and
      then gives each name's decimal value, in order. */
  lemma {:induction false} ConvertPidsMeaning(names: seq<string>)
    requires forall k :: 0 <= k < |names| ==> AllDigits(names[k])
    ensures ConvertPids(names).Ok? <==> forall k :: 0 <= k < |names| ==> ConvertibleName(names[k])
    ensures ConvertPids(names).Ok? ==>
              |ConvertPids(names).value| == |names| &&
              forall k :: 0 <= k < |names| ==> ConvertPids(names).value[k] == DecimalValue(names[k])
  {
    if names != [] {
      StoiOfDigits(names[0]);
      ConvertPidsMeaning(names[1..]);
      assert forall k :: 0 < k < |names| ==> names[k] == names[1..][k - 1];
    }
  }

  /** `ps` followed by the pids of a successful conversion. */
  function Prepend(ps: seq<int>, r: Result<seq<int>>): Result<seq<int>>
  {
    match r
    case Err(e) => Err(e)
    case Ok(qs) => Ok(ps + qs)
  }

  lemma PidsStep(ps: seq<int>, entries: seq<DirEntry>, i: nat)
    requires i < |entries|
    ensures IsPidEntry(entries[i]) ==>
              Prepend(ps, ConvertPids(PidNames(entries[i..]))) ==
              match Stoi(entries[i].name)
              case Err(e) => Err(e)
              case Ok(p) => Prepend(ps + [p], ConvertPids(PidNames(entries[i + 1..])))
    ensures !IsPidEntry(entries[i]) ==> PidNames(entries[i..]) == PidNames(entries[i + 1..])
  {
    var s := entries[i..];
    assert s[0] == entries[i] && s[1..] == entries[i + 1..];
    if IsPidEntry(entries[i]) {
      var rest := PidNames(entries[i + 1..]);
      assert PidNames(s) == [entries[i].name] + rest;
      assert ([entries[i].name] + rest)[1..] == rest;
      match Stoi(entries[i].name)
      case Err(e) =>
      case Ok(p) => {
        match ConvertPids(rest)
        case Err(e) =>
        case Ok(qs) => assert ps + ([p] + qs) == ps + [p] + qs;
      }
    } else {
      assert PidNames(s) == [] + PidNames(entries[i + 1..]);
    }
  }

  /** `LinuxParser::Pids` (:52-69), over the entries `readdir` returns. */
  method Pids(entries: seq<DirEntry>) returns (r: Result<seq<int>>)
    ensures r == ConvertPids(PidNames(entries))
  {
    var pids: seq<int> := [];
    var i := 0;
    assert entries[i..] == entries;
    assert Prepend(pids, ConvertPids(PidNames(entries))) == ConvertPids(PidNames(entries)) by {
      match ConvertPids(PidNames(entries))
      case Err(e) =>
      case Ok(qs) => assert pids + qs == qs;
    }
    while i < |entries|
      invariant 0 <= i <= |entries|
      invariant ConvertPids(PidNames(entries)) == Prepend(pids, ConvertPids(PidNames(entries[i..])))
    {
      var file := entries[i];
      PidsStep(pids, entries, i);
      if file.isDirectory {
        var filename := file.name;
        if AllDigits(filename) {
          var pid := Stoi(filename);
          if pid.Err? {
            return Err(pid.error);
          }
          pids := pids + [pid.value];
        }
      }
      i := i + 1;
    }
    assert entries[i..] == [];
    assert pids + [] == pids;
    return Ok(pids);
  }

  // =====================================================================
  // Stubs (:187-210): they read nothing and return a constant.

  /** `LinuxParser::TotalProcesses` returns 0. */
  function TotalProcesses(): (count: int)
    ensures count == 0
  {
    0
  }

  /** `LinuxParser::RunningProcesses` returns 0. */
  function RunningProcesses(): (count: int)
    ensures count == 0
  {
    0
  }

  /** `LinuxParser::Command(pid)` returns "" for every pid. */
  function Command(pid: int): (command: string)
    ensures command == ""
  {
    ""
  }

  /** `LinuxParser::Ram(pid)` returns "" for every pid. */
  function Ram(pid: int): (ram: string)
    ensures ram == ""
  {
    ""
  }

  /** `LinuxParser::Uid(pid)` returns "" for every pid. */
  function Uid(pid: int): (uid: string)
    ensures uid == ""
  {
    ""
  }

  /** `LinuxParser::User(pid)` returns "" for every pid. */
  function User(pid: int): (user: string)
    ensures user == ""
  {
    ""
  }

  /** `LinuxParser::UpTime(int pid)` returns 0 for every pid. */
  function ProcessUpTime(pid: int): (seconds: int)
    ensures seconds == 0
  {
    0
  }
}
