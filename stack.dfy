/** Stack capture and resolution: the raw program counters recorded when a
    chain is created, their resolution into frames (function, file, line and
    the trimmed source line) and the text a stack prints as.

    The Go runtime and the file system are not part of this model. They are
    given as an oracle: `callers` is the call stack as runtime.Callers lists it
    from inside the capture routine (innermost first, index 0 being
    runtime.Callers itself), and `Symbols` answers what runtime.FuncForPC,
    Func.FileLine and ioutil.ReadFile would answer. */
module StackTrace {
  import opened Optional
  import opened Strings

  /** How many program counters one runtime.Callers call reads at most. */
  const BufSize: nat := 20
  /** Whether resolution stops at the first runtime dispatch frame. */
  const SkipPastRuntimeCall: bool := true
  /** The separator between frames, and between messages and the stack. */
  const StackSeparator: string := "; "
  /** The function-name fragment of the runtime dispatch frame. */
  const RuntimeCall: string := "runtime.call64"
  const FileNotFound: string := "[file not found]"
  const LineNotFound: string := "[line not found]"

  /** The symbol information of the running binary and the source tree. */
  datatype Symbols = Symbols(
    funcName: nat -> string,           // name of the function holding a pc
    fileLine: nat -> (string, int),    // file and line of a pc
    readFile: string -> Option<string>) // contents of a file, None if unreadable
  {
    /** The runtime reports line 0 only for a pc it cannot place, and then
        the file ("?") cannot be read: a readable file has lines from 1. */
    ghost predicate Sane()
    {
      forall pc: nat :: readFile(fileLine(pc).0).Some? ==> fileLine(pc).1 >= 1
    }
  }

  /** A resolved stack frame. */
  datatype StackFrame = StackFrame(funcName: string, file: string, line: int, lineContents: string)

  /** runtime.Callers(skip, buf) with len(buf) == n: the entries of the call
      stack from index `skip` on, at most `n` of them. */
  function Callers(callers: seq<nat>, skip: nat, n: nat): seq<nat>
  {
    if skip >= |callers| then []
    else callers[skip..if skip + n <= |callers| then skip + n else |callers|]
  }

  /** The call stack without its first `k` entries (empty when it is shorter). */
  function Drop(callers: seq<nat>, k: nat): (r: seq<nat>)
  {
    if k <= |callers| then callers[k..] else []
  }

  /** getStackPC: reads the call stack in chunks of BufSize, advancing the
      offset by what each read returned, until a read comes back short (which
      may be an empty read). The result is the whole stack past the capture
      routine, runtime.Callers and the `skip` frames above them, however deep
      the stack is. */
  method GetStackPC(callers: seq<nat>, skip: nat) returns (pc: seq<nat>)
    ensures pc == Drop(callers, skip + 2)
    ensures |pc| == if skip + 2 <= |callers| then |callers| - (skip + 2) else 0
  {
    var offset: nat := skip + 2;
    pc := [];
    var numCallers := BufSize;
    while numCallers == BufSize
      invariant pc + Drop(callers, offset) == Drop(callers, skip + 2)
      invariant numCallers != BufSize ==> Drop(callers, offset) == []
      decreases numCallers == BufSize, |Drop(callers, offset)|
    {
      var buf := Callers(callers, offset, BufSize);
      CallersChunk(callers, pc, offset);
      numCallers := |buf|;
      pc := pc + buf;
      offset := offset + numCallers;
    }
  }

  /** One read returns the next entries of the stack: the stack read so far
      and what is left after it still make up the whole stack, a full read
      shortens what is left, and a short read leaves nothing. */
  lemma CallersChunk(callers: seq<nat>, pc: seq<nat>, offset: nat)
    ensures var buf := Callers(callers, offset, BufSize);
      (pc + buf) + Drop(callers, offset + |buf|) == pc + Drop(callers, offset)
      && (|buf| == BufSize ==> |Drop(callers, offset + |buf|)| < |Drop(callers, offset)|)
      && (|buf| != BufSize ==> Drop(callers, offset + |buf|) == [])
  {
    var buf := Callers(callers, offset, BufSize);
    if offset < |callers| {
      assert callers[offset..] == buf + callers[offset + |buf|..];
    }
  }

  /** getFileLine: the trimmed text of line `line` (counted from 1) of a file
      given by its contents, or a sentinel. An unreadable file gives
      FileNotFound. Only lines that end with a newline are found: a line
      number larger than the number of newlines gives LineNotFound (so the
      last line of a file without a final newline is never found). A found
      line has no blank at either end. The source indexes the line list with
      line-1, so a readable file with a line number below 1 is a caller
      error. */
  function GetFileLine(contents: Option<string>, line: int): (r: string)
    requires contents.Some? ==> line >= 1
    ensures contents.None? ==> r == FileNotFound
    ensures contents.Some? && line > Count(contents.value, '\n') ==> r == LineNotFound
    ensures contents.Some? && line <= Count(contents.value, '\n') ==>
      r == Trim(Split(contents.value, '\n')[line - 1]) && (r == [] || (!IsBlank(r[0]) && !IsBlank(r[|r| - 1])))
  {
    if contents.None? then FileNotFound
    else
      var lines := Split(contents.value, '\n');
      if line >= |lines| then LineNotFound
      else Trim(lines[line - 1])
  }

  /** In a file whose every line ends with a newline, every line is found,
      and what comes back is that line trimmed. */
  lemma TerminatedLinesAreFound(lines: seq<string>, line: int)
    requires forall i :: 0 <= i < |lines| ==> '\n' !in lines[i]
    requires 1 <= line <= |lines|
    ensures GetFileLine(Some(Join(lines, "\n") + "\n"), line) == Trim(lines[line - 1])
  {
    var pieces := lines + [""];
    var contents := Join(lines, "\n") + "\n";
    if |lines| > 0 {
      JoinSnoc(lines, "", "\n");
    }
    assert Join(pieces, "\n") == contents;
    SplitOfJoin(pieces, '\n');
    assert Split(contents, '\n') == pieces;
    assert pieces[line - 1] == lines[line - 1];
  }

  /** In a file whose last line has no final newline, that last line is
      reported as LineNotFound although it exists. */
  lemma UnterminatedLastLineIsNotFound(lines: seq<string>)
    requires |lines| > 0
    requires forall i :: 0 <= i < |lines| ==> '\n' !in lines[i]
    ensures GetFileLine(Some(Join(lines, "\n")), |lines|) == LineNotFound
  {
    SplitOfJoin(lines, '\n');
  }

  /** frame: what is known about one program counter. */
  function Frame(sym: Symbols, pc: nat): (f: StackFrame)
    requires sym.Sane()
    ensures f.funcName == sym.funcName(pc)
    ensures (f.file, f.line) == sym.fileLine(pc)
    ensures sym.readFile(f.file).None? ==> f.lineContents == FileNotFound
    ensures sym.readFile(f.file).Some? ==> f.line >= 1
    ensures sym.readFile(f.file).Some? && f.line > Count(sym.readFile(f.file).value, '\n') ==>
      f.lineContents == LineNotFound
    ensures sym.readFile(f.file).Some? && f.line <= Count(sym.readFile(f.file).value, '\n') ==>
      f.lineContents == Trim(Split(sym.readFile(f.file).value, '\n')[f.line - 1])
  {
    var (file, line) := sym.fileLine(pc);
    StackFrame(sym.funcName(pc), file, line, GetFileLine(sym.readFile(file), line))
  }

  /** Whether resolution stops at this program counter. */
  predicate StopsResolution(sym: Symbols, pc: nat)
  {
    SkipPastRuntimeCall && Contains(sym.funcName(pc), RuntimeCall)
  }

  /** The frames getStack resolves from a raw stack: those of the longest
      prefix in which no function name contains RuntimeCall, in capture order. */
  function Resolve(sym: Symbols, pcs: seq<nat>): (frames: seq<StackFrame>)
    requires sym.Sane()
    ensures |frames| <= |pcs|
    ensures forall j :: 0 <= j < |frames| ==> frames[j] == Frame(sym, pcs[j]) && !StopsResolution(sym, pcs[j])
    ensures |frames| < |pcs| ==> StopsResolution(sym, pcs[|frames|])
  {
    if pcs == [] || StopsResolution(sym, pcs[0]) then []
    else
      var rest := Resolve(sym, pcs[1..]);
      assert forall j :: 0 <= j < |rest| ==> pcs[1..][j] == pcs[j + 1];
      [Frame(sym, pcs[0])] + rest
  }

  /** Resolution passes over a frame that is not a dispatch frame: the
      frames resolved so far, that frame and the rest of the resolution make
      up the same whole. */
  lemma ResolveStep(sym: Symbols, pcs: seq<nat>, done: seq<StackFrame>, i: nat)
    requires sym.Sane()
    requires i < |pcs| && !StopsResolution(sym, pcs[i])
    ensures (done + [Frame(sym, pcs[i])]) + Resolve(sym, pcs[i + 1..]) == done + Resolve(sym, pcs[i..])
  {
    assert pcs[i..][1..] == pcs[i + 1..];
  }

  /** Resolution ends at a dispatch frame and at the end of the stack. */
  lemma ResolveStop(sym: Symbols, pcs: seq<nat>, i: nat)
    requires sym.Sane()
    requires i == |pcs| || (i < |pcs| && StopsResolution(sym, pcs[i]))
    ensures Resolve(sym, pcs[i..]) == []
  {
    if i < |pcs| {
      assert pcs[i..][0] == pcs[i];
    }
  }

  /** A stack with no dispatch frame resolves completely. */
  lemma ResolveAll(sym: Symbols, pcs: seq<nat>)
    requires sym.Sane()
    requires forall j :: 0 <= j < |pcs| ==> !StopsResolution(sym, pcs[j])
    ensures |Resolve(sym, pcs)| == |pcs|
  {
  }

  /** One frame as Stack prints it: "file:line funcName: lineContents". */
  function FormatFrame(f: StackFrame): string
  {
    f.file + ":" + IntToDecimal(f.line) + " " + f.funcName + ": " + f.lineContents
  }

  /** A formatted frame is never empty: it holds at least the ":" after the file. */
  lemma FormatFrameNonEmpty(f: StackFrame)
    ensures |FormatFrame(f)| > |f.file|
  {
  }

  /** `f` applied to each element of `s`, in order. */
  function MapSeq<A, B>(f: A -> B, s: seq<A>): (r: seq<B>)
    ensures |r| == |s|
  {
    seq(|s|, i requires 0 <= i < |s| => f(s[i]))
  }

  /** Mapping one more element appends its image. */
  lemma MapSeqSnoc<A, B>(f: A -> B, s: seq<A>)
    requires |s| > 0
    ensures MapSeq(f, s) == MapSeq(f, s[..|s| - 1]) + [f(s[|s| - 1])]
  {
    var init := s[..|s| - 1];
    assert forall i :: 0 <= i < |init| ==> init[i] == s[i];
  }

  /** The formatted frames, in order. */
  function FormatAll(frames: seq<StackFrame>): (parts: seq<string>)
    ensures |parts| == |frames|
  {
    MapSeq(FormatFrame, frames)
  }

  /** What Stack's buffer holds after writing `frames` one by one, the
      separator going before a frame only when the buffer is non-empty. */
  function StackText(frames: seq<StackFrame>): string
  {
    if frames == [] then ""
    else WriteSeparated(StackText(frames[..|frames| - 1]), StackSeparator, FormatFrame(frames[|frames| - 1]))
  }

  /** Writing one more frame writes the separator (if the text so far is
      non-empty) and that frame. */
  lemma StackTextGrows(frames: seq<StackFrame>, i: nat)
    requires i < |frames|
    ensures StackText(frames[..i + 1]) == WriteSeparated(StackText(frames[..i]), StackSeparator, FormatFrame(frames[i]))
  {
    assert frames[..i + 1][..i] == frames[..i];
  }

  /** Because a formatted frame is never empty, the stack text is exactly the
      formatted frames joined by the separator: no separator at either end,
      one between each pair, and the empty string for no frames. */
  lemma {:induction false} StackTextIsJoin(frames: seq<StackFrame>)
    ensures StackText(frames) == Join(FormatAll(frames), StackSeparator)
    ensures StackText(frames) == "" <==> frames == []
  {
    if frames != [] {
      var init := frames[..|frames| - 1];
      var f := frames[|frames| - 1];
      StackTextIsJoin(init);
      FormatFrameNonEmpty(f);
      MapSeqSnoc(FormatFrame, frames);
      if init != [] {
        JoinSnoc(FormatAll(init), FormatFrame(f), StackSeparator);
      }
    }
  }

  /** Where the function name stands in a formatted frame. */
  function FuncNameOffset(f: StackFrame): nat
  {
    |f.file| + 1 + |IntToDecimal(f.line)| + 1
  }

  /** A formatted frame shows the function name followed by ": ". */
  lemma FormatFrameShowsFuncName(f: StackFrame)
    ensures OccursAt(FormatFrame(f), f.funcName + ": ", FuncNameOffset(f))
  {
    var head := f.file + ":" + IntToDecimal(f.line) + " ";
    assert |head| == FuncNameOffset(f);
    assert FormatFrame(f) == head + (f.funcName + ": ") + f.lineContents;
  }

  /** The stack text starts with the first (innermost) frame, so the name of
      the function that frame belongs to can be read off its first part. */
  lemma {:induction false} StackTextStartsWithFirstFrame(frames: seq<StackFrame>)
    requires |frames| > 0
    ensures FormatFrame(frames[0]) <= StackText(frames)
    ensures OccursAt(StackText(frames), frames[0].funcName + ": ", FuncNameOffset(frames[0]))
  {
    var init := frames[..|frames| - 1];
    if |init| > 0 {
      StackTextStartsWithFirstFrame(init);
      assert init[0] == frames[0];
      var text := StackText(init);
      assert text <= WriteSeparated(text, StackSeparator, FormatFrame(frames[|frames| - 1]));
    } else {
      assert StackText(frames) == FormatFrame(frames[0]);
    }
    FormatFrameShowsFuncName(frames[0]);
    OccursInLonger(FormatFrame(frames[0]), StackText(frames), frames[0].funcName + ": ", FuncNameOffset(frames[0]));
  }

  /** The loop of Stack: writes the formatted frames into a buffer, the
      separator going first whenever the buffer is already non-empty. */
  method WriteFrames(frames: seq<StackFrame>) returns (s: string)
    ensures s == StackText(frames)
  {
    var buf := "";
    for i := 0 to |frames|
      invariant buf == StackText(frames[..i])
    {
      StackTextGrows(frames, i);
      if |buf| > 0 {
        buf := buf + StackSeparator;
      }
      buf := buf + FormatFrame(frames[i]);
    }
    assert frames[..|frames|] == frames;
    s := buf;
  }

  /** One frame as the log shows it: an indented "file:line" line followed
      by a further indented "funcName: lineContents" line. */
  function LogEntry(f: StackFrame): string
  {
    "  " + f.file + ":" + IntToDecimal(f.line) + "\n    " + f.funcName + ": " + f.lineContents + "\n"
  }

  function LogEntries(frames: seq<StackFrame>): string
  {
    if frames == [] then "" else LogEntries(frames[..|frames| - 1]) + LogEntry(frames[|frames| - 1])
  }

  /** What PrintTolog hands to the log: the combined messages, a newline,
      and one block per frame. */
  function LogText(msgs: string, frames: seq<StackFrame>): string
  {
    msgs + "\n" + LogEntries(frames)
  }

  /** Writing one more frame's block extends the log text by that block. */
  lemma LogTextGrows(msgs: string, frames: seq<StackFrame>, i: nat)
    requires i < |frames|
    ensures LogText(msgs, frames[..i + 1]) == LogText(msgs, frames[..i]) + LogEntry(frames[i])
  {
    assert frames[..i + 1][..i] == frames[..i];
  }

  /** The body of PrintTolog: the messages, a newline, then each frame's
      block in turn. */
  method WriteLog(msgs: string, frames: seq<StackFrame>) returns (logged: string)
    ensures logged == LogText(msgs, frames)
  {
    var buf := msgs + "\n";
    for i := 0 to |frames|
      invariant buf == LogText(msgs, frames[..i])
    {
      LogTextGrows(msgs, frames, i);
      buf := buf + LogEntry(frames[i]);
    }
    assert frames[..|frames|] == frames;
    logged := buf;
  }

  lemma {:induction false} CountAppend(a: string, b: string, c: char)
    ensures Count(a + b, c) == Count(a, c) + Count(b, c)
  {
    if a != [] {
      assert (a + b)[1..] == a[1..] + b;
      CountAppend(a[1..], b, c);
    } else {
      assert a + b == b;
    }
  }

  lemma {:induction false} CountNone(s: string, c: char)
    requires c !in s
    ensures Count(s, c) == 0
  {
    if s != [] {
      CountNone(s[1..], c);
    }
  }

  /** A frame whose texts hold no newline never spans more than its two lines. */
  predicate OneLineFields(f: StackFrame)
  {
    '\n' !in f.file && '\n' !in f.funcName && '\n' !in f.lineContents
  }

  lemma DecimalHasNoNewline(n: int)
    ensures '\n' !in IntToDecimal(n)
  {
    var digits := IntToDecimal(n);
    if n < 0 {
      assert digits == "-" + NatToDecimal(-n);
      assert forall i :: 1 <= i < |digits| ==> digits[i] == NatToDecimal(-n)[i - 1];
    }
  }

  /** A frame's log block is two lines when its texts hold no newline. */
  lemma LogEntryIsTwoLines(f: StackFrame)
    requires OneLineFields(f)
    ensures Count(LogEntry(f), '\n') == 2
  {
    DecimalHasNoNewline(f.line);
    var a := "  " + f.file + ":" + IntToDecimal(f.line);
    var b := "    " + f.funcName + ": " + f.lineContents;
    assert LogEntry(f) == (a + "\n") + (b + "\n");
    CountNone(a, '\n');
    CountNone(b, '\n');
    CountAppend(a, "\n", '\n');
    CountAppend(b, "\n", '\n');
    CountAppend(a + "\n", b + "\n", '\n');
  }

  /** When no frame text holds a newline, the log holds exactly two lines
      per frame after the message line. */
  lemma {:induction false} LogEntriesAreTwoLinesEach(frames: seq<StackFrame>)
    requires forall j :: 0 <= j < |frames| ==> OneLineFields(frames[j])
    ensures Count(LogEntries(frames), '\n') == 2 * |frames|
  {
    if frames != [] {
      var init := frames[..|frames| - 1];
      var f := frames[|frames| - 1];
      LogEntriesAreTwoLinesEach(init);
      LogEntryIsTwoLines(f);
      CountAppend(LogEntries(init), LogEntry(f), '\n');
    }
  }
}
