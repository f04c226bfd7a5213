/** The server's PID file (client/daemon.go) and the start time in /proc/<pid>/stat (client/proc_unix.go). */
module PidFile {
  import opened Text

  // ----- Writing and reading

  /** What fmt.Sprintf("%d\n%d\n", pid, startTime) writes. */
  function Written(pid: int, startTime: int): string {
    FormatInt(pid) + "\n" + FormatInt(startTime) + "\n"
  }

  datatype Recorded = Recorded(pid: int, startTime: int)

  /** `data` is the content of the file, if it can be read. */
  function ReadPidFile(data: Option<string>): Option<Recorded> {
    if data.None? then None
    else
      var lines := Split(TrimSpace(data.value), '\n');
      match ParseInt64(TrimSpace(lines[0]))
      case None => None
      case Some(pid) =>
        if |lines| >= 2 then
          match ParseInt64(TrimSpace(lines[1]))
          case None => None
          case Some(startTime) => Some(Recorded(pid, startTime))
        else Some(Recorded(pid, 0))
  }

  predicate IsBlank(s: string) {
    forall i :: 0 <= i < |s| ==> IsSpace(s[i])
  }

  // ----- Trimming around a line end

  lemma {:induction false} TrimLeftAppend(s: string, t: string)
    requires !IsBlank(s)
    ensures TrimLeft(s + t, IsSpace) == TrimLeft(s, IsSpace) + t && !IsBlank(TrimLeft(s, IsSpace))
  {
    if IsSpace(s[0]) {
      assert (s + t)[1..] == s[1..] + t && s == [s[0]] + s[1..];
      TrimLeftAppend(s[1..], t);
    }
  }

  lemma {:induction false} TrimRightAppend(s: string, t: string)
    ensures TrimRight(s + t, IsSpace) == if IsBlank(t) then TrimRight(s, IsSpace) else s + TrimRight(t, IsSpace)
  {
    if t == "" {
      assert s + t == s;
    } else {
      var n := |t| - 1;
      assert t == t[..n] + [t[n]] && (s + t)[|s + t| - 1] == t[n];
      if IsSpace(t[n]) {
        assert (s + t)[..|s + t| - 1] == s + t[..n];
        TrimRightAppend(s, t[..n]);
      }
    }
  }

  lemma {:induction false} TrimRightIdempotent(s: string)
    ensures TrimRight(TrimRight(s, IsSpace), IsSpace) == TrimRight(s, IsSpace)
    ensures s != "" && !IsSpace(s[0]) ==> TrimRight(s, IsSpace) != "" && TrimRight(s, IsSpace)[0] == s[0]
  {
    if s != "" && IsSpace(s[|s| - 1]) {
      TrimRightIdempotent(s[..|s| - 1]);
    }
  }

  lemma {:induction false} TrimLeftFixed(s: string)
    ensures TrimLeft(TrimLeft(s, IsSpace), IsSpace) == TrimLeft(s, IsSpace)
    ensures TrimLeft(s, IsSpace) == "" <==> IsBlank(s)
  {
    if s != "" {
      assert s == [s[0]] + s[1..];
      TrimLeftFixed(s[1..]);
    }
  }

  lemma TrimSpaceOfTrimLeft(s: string)
    ensures TrimSpace(TrimLeft(s, IsSpace)) == TrimSpace(s)
  {
    TrimLeftFixed(s);
  }

  lemma BlankTrims(s: string)
    requires IsBlank(s)
    ensures TrimSpace(s) == "" && TrimRight(s, IsSpace) == ""
  {
    TrimLeftFixed(s);
    TrimRightAppend("", s);
    assert "" + s == s;
  }

  lemma TrimSpaceOfTrimRight(s: string)
    ensures TrimSpace(TrimRight(s, IsSpace)) == TrimSpace(s)
  {
    if IsBlank(s) {
      BlankTrims(s);
    } else {
      var k := TrimRightMeaning(s, IsSpace);
      var t := s[..k];
      assert k > 0 && t[k - 1] == s[k - 1];
      TrimLeftAppend(t, s[k..]);
      assert t + s[k..] == s;
      assert IsBlank(s[k..]);
      TrimRightAppend(TrimLeft(t, IsSpace), s[k..]);
    }
  }

  lemma NoNewLineEnd(s: string)
    requires '\n' !in s
    ensures '\n' !in TrimLeft(s, IsSpace) && '\n' !in TrimRight(s, IsSpace)
  {
    var k := TrimLeftMeaning(s, IsSpace);
    var n := TrimRightMeaning(s, IsSpace);
  }

  lemma LineEnd(rest: string)
    ensures IsBlank("\n" + rest) <==> IsBlank(rest)
    ensures !IsBlank(rest) ==> TrimRight("\n" + rest, IsSpace) == "\n" + TrimRight(rest, IsSpace)
  {
    var s := "\n" + rest;
    assert forall i :: 0 <= i < |rest| ==> s[i + 1] == rest[i];
    assert IsSpace(s[0]);
    TrimRightAppend("\n", rest);
  }

  lemma FirstLineOfMore(line: string, more: string)
    requires '\n' !in line
    ensures TrimSpace(Split(TrimRight(line + ("\n" + more), IsSpace), '\n')[0]) == TrimSpace(line)
  {
    TrimRightAppend(line, "\n" + more);
    LineEnd(more);
    if IsBlank(more) {
      NoNewLineEnd(line);
      SplitFirst(TrimRight(line, IsSpace), "", '\n');
      TrimSpaceOfTrimRight(line);
    } else {
      var end := TrimRight(more, IsSpace);
      assert line + ("\n" + end) == line + ['\n'] + end;
      SplitFirst(line, end, '\n');
    }
  }

  lemma LineAndMore(line: string, more: string)
    ensures line + ['\n'] + more == line + ("\n" + more)
  {
  }

  lemma FirstLine(rest: string)
    ensures TrimSpace(Split(TrimRight(rest, IsSpace), '\n')[0]) == TrimSpace(Split(rest, '\n')[0])
  {
    match Cut(rest, '\n')
    case None =>
      SplitFirst(rest, "", '\n');
      NoNewLineEnd(rest);
      SplitFirst(TrimRight(rest, IsSpace), "", '\n');
      TrimSpaceOfTrimRight(rest);
    case Some((line, more)) =>
      SplitFirst(line, more, '\n');
      FirstLineOfMore(line, more);
      LineAndMore(line, more);
  }

  /** A line, a line end and more, as the reader splits them. */
  lemma SplitTrimmed(line: string, rest: string)
    requires '\n' !in line && !IsBlank(line)
    ensures var lines := Split(TrimSpace(line + "\n" + rest), '\n');
            && TrimSpace(lines[0]) == TrimSpace(line)
            && (|lines| == 1 <==> IsBlank(rest))
            && (|lines| > 1 ==> TrimSpace(lines[1]) == TrimSpace(Split(rest, '\n')[0]))
  {
    var start := TrimLeft(line, IsSpace);
    assert line + "\n" + rest == line + ("\n" + rest);
    TrimLeftAppend(line, "\n" + rest);
    TrimRightAppend(start, "\n" + rest);
    LineEnd(rest);
    NoNewLineEnd(line);
    TrimSpaceOfTrimLeft(line);
    if IsBlank(rest) {
      NoNewLineEnd(start);
      SplitFirst(TrimRight(start, IsSpace), "", '\n');
      TrimSpaceOfTrimRight(start);
    } else {
      var end := TrimRight(rest, IsSpace);
      assert start + ("\n" + end) == start + "\n" + end;
      SplitFirst(start, end, '\n');
      FirstLine(rest);
    }
  }

  // ----- What the reader accepts

  lemma NumeralIsNotBlank(s: string)
    requires ParseInt64(TrimSpace(s)).Some?
    ensures !IsBlank(s)
  {
    if IsBlank(s) {
      BlankTrims(s);
    }
  }

  /** A file whose first line is a PID: whatever follows decides. Nothing but white space makes it a
      legacy file with start time 0, and otherwise the second line must be an integer. */
  lemma ReadAfterPid(line: string, rest: string)
    requires '\n' !in line && ParseInt64(TrimSpace(line)).Some?
    ensures ReadPidFile(Some(line + "\n" + rest)) ==
              var pid := ParseInt64(TrimSpace(line)).value;
              if IsBlank(rest) then Some(Recorded(pid, 0))
              else
                match ParseInt64(TrimSpace(Split(rest, '\n')[0]))
                case None => None
                case Some(startTime) => Some(Recorded(pid, startTime))
  {
    NumeralIsNotBlank(line);
    SplitTrimmed(line, rest);
  }

  /** "A file with a second line that is not an integer is rejected" holds exactly if something but white
      space follows the first line. */
  lemma BadSecondLineIsRejectedIff(line: string, rest: string)
    requires '\n' !in line && ParseInt64(TrimSpace(line)).Some?
    requires ParseInt64(TrimSpace(Split(rest, '\n')[0])).None?
    ensures ReadPidFile(Some(line + "\n" + rest)) == None <==> !IsBlank(rest)
  {
    ReadAfterPid(line, rest);
  }

  lemma BlankRestDowngrades(pid: int, rest: string)
    requires MIN_INT64 <= pid <= MAX_INT64 && IsBlank(rest)
    ensures ReadPidFile(Some(FormatInt(pid) + "\n" + rest)) == Some(Recorded(pid, 0))
  {
    ParseOfFormat(pid);
    ReadAfterPid(FormatInt(pid), rest);
  }

  /** The file "7", line end, blank, line end has a second line that is no integer and is read all the
      same, as a legacy file, for which VerifyDaemonStartTime checks nothing. */
  lemma BlankSecondLineDowngrades(data: string, live: Option<int>)
    requires data == "7\n \n"
    ensures ReadPidFile(Some(data)) == Some(Recorded(7, 0)) && VerifyDaemonStartTime(0, live)
  {
    var rest := data[2..];
    assert FormatInt(7) == "7";
    assert data == FormatInt(7) + "\n" + rest;
    BlankRestDowngrades(7, rest);
  }

  /** White space around the content does not matter. */
  lemma ReadIgnoresSpaceAround(left: string, data: string, right: string)
    requires IsBlank(left) && IsBlank(right)
    ensures ReadPidFile(Some(left + data + right)) == ReadPidFile(Some(data))
  {
    TrimSpaceAround(left, data, right);
  }

  lemma {:induction false} TrimLeftBlank(left: string, s: string)
    requires IsBlank(left)
    ensures TrimLeft(left + s, IsSpace) == TrimLeft(s, IsSpace)
  {
    if left == "" {
      assert left + s == s;
    } else {
      assert (left + s)[1..] == left[1..] + s;
      TrimLeftBlank(left[1..], s);
    }
  }

  lemma TrimSpaceAround(left: string, s: string, right: string)
    requires IsBlank(left) && IsBlank(right)
    ensures TrimSpace(left + s + right) == TrimSpace(s)
  {
    assert left + s + right == left + (s + right);
    TrimLeftBlank(left, s + right);
    if IsBlank(s) {
      TrimLeftBlank(s, right);
      BlankTrims(s);
      BlankTrims(right);
      TrimLeftFixed(right);
      TrimLeftFixed(s);
    } else {
      TrimLeftAppend(s, right);
      TrimRightAppend(TrimLeft(s, IsSpace), right);
    }
  }

  /** Reading undoes writing for every 64-bit PID and start time. */
  lemma ReadOfWritten(pid: int, startTime: int)
    requires MIN_INT64 <= pid <= MAX_INT64 && MIN_INT64 <= startTime <= MAX_INT64
    ensures ReadPidFile(Some(Written(pid, startTime))) == Some(Recorded(pid, startTime))
  {
    ParseOfFormat(pid);
    ParseOfFormat(startTime);
    NumeralIsNotBlank(FormatInt(startTime));
    var rest := FormatInt(startTime) + "\n";
    assert Written(pid, startTime) == FormatInt(pid) + "\n" + rest;
    assert rest == FormatInt(startTime) + "\n" + "";
    SplitFirst(FormatInt(startTime), "", '\n');
    NotBlankAppend(FormatInt(startTime), "\n");
    ReadAfterPid(FormatInt(pid), rest);
  }

  lemma NotBlankAppend(s: string, t: string)
    requires !IsBlank(s)
    ensures !IsBlank(s + t)
  {
    var i :| 0 <= i < |s| && !IsSpace(s[i]);
    assert (s + t)[i] == s[i];
  }

  // ----- The check before a signal

  /** `live` is the start time of the process that has the PID now, if it can be read. */
  predicate VerifyDaemonStartTime(recordedStart: int, live: Option<int>) {
    recordedStart == 0 || live == Some(recordedStart)
  }

  /** A process other than the recorded one is never taken for it, once a start time was recorded. */
  lemma StopChecksTheProcess(pid: int, startTime: int, live: Option<int>)
    requires MIN_INT64 <= pid <= MAX_INT64 && MIN_INT64 <= startTime <= MAX_INT64
    ensures var recorded := ReadPidFile(Some(Written(pid, startTime)));
            && recorded.Some? && recorded.value.pid == pid
            && (VerifyDaemonStartTime(recorded.value.startTime, live) <==> startTime == 0 || live == Some(startTime))
  {
    ReadOfWritten(pid, startTime);
  }

  // ----- /proc/<pid>/stat

  /** strings.LastIndex for one character: -1 if there is none. */
  function LastIndex(s: string, c: char): (i: int)
    ensures -1 <= i < |s| && (i >= 0 ==> s[i] == c)
  {
    if s == "" then -1 else if s[|s| - 1] == c then |s| - 1 else LastIndex(s[..|s| - 1], c)
  }

  /** The leading characters that are not white space. */
  function Word(s: string): (w: string)
    ensures w <= s
  {
    if s == "" || IsSpace(s[0]) then "" else [s[0]] + Word(s[1..])
  }

  /** strings.Fields */
  function Fields(s: string): seq<string>
    decreases |s|
  {
    if s == "" then []
    else if IsSpace(s[0]) then Fields(s[1..])
    else
      assert Word(s) == [s[0]] + Word(s[1..]);
      [Word(s)] + Fields(s[|Word(s)|..])
  }

  datatype StatError = NoParen | TooFewFields(n: nat) | BadStartTime

  function ParseProcStat(s: string): Result<int, StatError> {
    var rparen := LastIndex(s, ')');
    if rparen == -1 then Err(NoParen)
    else
      var fields := Fields(s[rparen + 1..]);
      if |fields| < 20 then Err(TooFewFields(|fields|))
      else
        match ParseInt64(fields[19])
        case None => Err(BadStartTime)
        case Some(n) => Ok(n)
  }

  lemma {:induction false} LastIndexAfter(before: string, after: string, c: char)
    requires c !in after
    ensures LastIndex(before + [c] + after, c) == |before|
  {
    var s := before + [c] + after;
    if after != "" {
      assert s[|s| - 1] == after[|after| - 1];
      assert s[..|s| - 1] == before + [c] + after[..|after| - 1];
      LastIndexAfter(before, after[..|after| - 1], c);
    }
  }

  predicate IsWord(s: string) {
    s != "" && forall i :: 0 <= i < |s| ==> !IsSpace(s[i])
  }

  lemma {:induction false} WordFirst(w: string, s: string)
    requires (forall i :: 0 <= i < |w| ==> !IsSpace(w[i])) && (s == "" || IsSpace(s[0]))
    ensures Word(w + s) == w
  {
    if w == "" {
      assert w + s == s;
    } else {
      assert (w + s)[1..] == w[1..] + s;
      WordFirst(w[1..], s);
    }
  }

  lemma FieldsFirst(w: string, s: string)
    requires IsWord(w) && (s == "" || IsSpace(s[0]))
    ensures Fields(w + s) == [w] + Fields(s)
  {
    WordFirst(w, s);
    assert (w + s)[|w|..] == s && (w + s)[0] == w[0];
  }

  lemma {:induction false} FieldsOfJoin(fields: seq<string>, end: string)
    requires fields != [] && forall i :: 0 <= i < |fields| ==> IsWord(fields[i])
    requires IsBlank(end)
    ensures Fields(Join(fields, ' ') + end) == fields
  {
    if |fields| == 1 {
      FieldsOfBlank(end);
      FieldsFirst(fields[0], end);
    } else {
      var rest := Join(fields[1..], ' ') + end;
      assert Join(fields, ' ') + end == fields[0] + ([' '] + rest);
      FieldsFirst(fields[0], [' '] + rest);
      assert ([' '] + rest)[1..] == rest;
      FieldsOfJoin(fields[1..], end);
    }
  }

  lemma {:induction false} FieldsOfBlank(s: string)
    requires IsBlank(s)
    ensures Fields(s) == []
  {
    if s != "" {
      FieldsOfBlank(s[1..]);
    }
  }

  /** Only the fields behind the last closing parenthesis count. */
  lemma AfterLastParen(before: string, after: string)
    requires ')' !in after
    ensures ParseProcStat(before + [')'] + after) ==
              if |Fields(after)| < 20 then Err(TooFewFields(|Fields(after)|))
              else match ParseInt64(Fields(after)[19]) case None => Err(BadStartTime) case Some(n) => Ok(n)
  {
    LastIndexAfter(before, after, ')');
    assert (before + [')'] + after)[|before| + 1..] == after;
  }

  lemma FieldsOfStat(fields: seq<string>, after: string)
    requires fields != [] && forall i :: 0 <= i < |fields| ==> IsWord(fields[i]) && ')' !in fields[i]
    requires after == " " + Join(fields, ' ') + "\n"
    ensures ')' !in after && Fields(after) == fields
  {
    NotInJoin(fields, ')');
    assert after[0] == ' ' && after[1..] == Join(fields, ' ') + "\n";
    FieldsOfJoin(fields, "\n");
  }

  /** The parser finds the start time behind every command name, even one with spaces and parentheses,
      as long as no field after the name has a closing one. */
  lemma StartTimeIsFound(pid: string, comm: string, fields: seq<string>)
    requires |fields| >= 20 && forall i :: 0 <= i < |fields| ==> IsWord(fields[i]) && ')' !in fields[i]
    ensures ParseProcStat(pid + " (" + comm + [')'] + (" " + Join(fields, ' ') + "\n"))
            == match ParseInt64(fields[19]) case None => Err(BadStartTime) case Some(n) => Ok(n)
  {
    var after := " " + Join(fields, ' ') + "\n";
    FieldsOfStat(fields, after);
    AfterLastParen(pid + " (" + comm, after);
  }

  lemma {:induction false} NotInJoin(fields: seq<string>, c: char)
    requires fields != [] && c != ' ' && forall i :: 0 <= i < |fields| ==> c !in fields[i]
    ensures c !in Join(fields, ' ')
  {
    if |fields| > 1 {
      NotInJoin(fields[1..], c);
    }
  }

  lemma {:induction false} NoParenIsAnError(s: string)
    ensures ParseProcStat(s) == Err(NoParen) <==> ')' !in s
  {
    if s != "" {
      NoParenIsAnError(s[..|s| - 1]);
      assert s == s[..|s| - 1] + [s[|s| - 1]];
    }
  }
}
