/** The error chain: an application error holds the ordered list of its
    causes (root first, newest annotation last) and the raw stack captured
    when the chain was created. Wrapping a plain error creates a chain;
    wrapping a chain extends it in place; wrapping nil gives nil. */
module Errors {
  import opened Optional
  import opened Strings
  import opened StackTrace

  /** A value of Go's `error` interface: nil, an error of some other type
      (seen only through its message), or one of this package's chains. */
  datatype Error = Nil | Plain(msg: string) | Chain(chain: AppError)

  /** The separator between messages in the combined message. */
  const MessageSeparator: string := ": "

  /** wrapF passes 2 to skip itself and the exported function that called it. */
  const CaptureSkip: nat := 2

  predicate AllPlain(es: seq<Error>)
  {
    forall i :: 0 <= i < |es| ==> es[i].Plain?
  }

  /** The messages of plain errors, in the same order. */
  function MessagesOf(es: seq<Error>): (ms: seq<string>)
    requires AllPlain(es)
    ensures |ms| == |es|
    ensures forall i :: 0 <= i < |es| ==> ms[i] == es[i].msg
  {
    if es == [] then [] else MessagesOf(es[..|es| - 1]) + [es[|es| - 1].msg]
  }

  /** What a buffer holding `buf` holds after the messages `ms` are written
      into it newest first, ": " going before a message only when the buffer
      is non-empty. */
  function WriteNewestFirst(buf: string, ms: seq<string>): string
    decreases |ms|
  {
    if ms == [] then buf
    else WriteNewestFirst(WriteSeparated(buf, MessageSeparator, ms[|ms| - 1]), ms[..|ms| - 1])
  }

  /** The combined message of a chain whose messages are `ms`. */
  function CombinedMessages(ms: seq<string>): string
  {
    WriteNewestFirst("", ms)
  }

  /** Writing only adds to the end of the buffer. */
  lemma {:induction false} WriteKeepsBuffer(buf: string, ms: seq<string>)
    ensures buf <= WriteNewestFirst(buf, ms)
    decreases |ms|
  {
    if ms != [] {
      var next := WriteSeparated(buf, MessageSeparator, ms[|ms| - 1]);
      WriteKeepsBuffer(next, ms[..|ms| - 1]);
    }
  }

  /** The combined message starts with the newest message. */
  lemma CombinedStartsWithNewest(ms: seq<string>)
    requires |ms| > 0
    ensures ms[|ms| - 1] <= CombinedMessages(ms)
  {
    assert WriteSeparated("", MessageSeparator, ms[|ms| - 1]) == ms[|ms| - 1];
    WriteKeepsBuffer(ms[|ms| - 1], ms[..|ms| - 1]);
  }

  predicate NoneEmpty(ms: seq<string>)
  {
    forall i :: 0 <= i < |ms| ==> ms[i] != ""
  }

  /** When no message is empty, writing them onto a buffer appends the
      messages newest first, joined by ": ". */
  lemma {:induction false} WriteIsReverseJoin(buf: string, ms: seq<string>)
    requires NoneEmpty(ms) && |ms| > 0
    ensures WriteNewestFirst(buf, ms) ==
      if buf == "" then Join(Reverse(ms), MessageSeparator)
      else buf + MessageSeparator + Join(Reverse(ms), MessageSeparator)
    decreases |ms|
  {
    var x := ms[|ms| - 1];
    var init := ms[..|ms| - 1];
    var next := WriteSeparated(buf, MessageSeparator, x);
    assert Reverse(ms) == [x] + Reverse(init);
    if init != [] {
      WriteIsReverseJoin(next, init);
      assert Join(Reverse(ms), MessageSeparator) == x + MessageSeparator + Join(Reverse(init), MessageSeparator);
    }
  }

  /** When no message is empty, the combined message is the messages from
      newest to root joined by ": ". */
  lemma CombinedIsReverseJoin(ms: seq<string>)
    requires NoneEmpty(ms)
    ensures CombinedMessages(ms) == Join(Reverse(ms), MessageSeparator)
  {
    if ms != [] {
      WriteIsReverseJoin("", ms);
    }
  }

  /** Annotating a chain with a new non-empty message puts that message and
      ": " in front of the combined message it had. */
  lemma AnnotationGoesFirst(ms: seq<string>, m: string)
    requires NoneEmpty(ms) && |ms| > 0 && m != ""
    ensures CombinedMessages(ms + [m]) == m + MessageSeparator + CombinedMessages(ms)
  {
    assert (ms + [m])[..|ms|] == ms;
    assert WriteSeparated("", MessageSeparator, m) == m;
    WriteIsReverseJoin(m, ms);
    CombinedIsReverseJoin(ms);
  }

  /** The chain itself (appError). */
  class AppError {
    /** The causes, root first. */
    var underlying: seq<Error>
    /** The raw stack, captured once when the chain was created. */
    const stack: seq<nat>
    /** The resolved frames; None until the stack is first resolved. */
    var frameCache: Option<seq<StackFrame>>

    /** A chain has a root cause and never holds another chain or nil. */
    ghost predicate Valid()
      reads this
    {
      |underlying| > 0 && AllPlain(underlying)
    }

    /** The frames the stack prints as: the kept frames once the cache is
        filled (even if the symbols or source files changed since), and
        otherwise the resolution of the raw stack. */
    ghost function Frames(sym: Symbols): seq<StackFrame>
      requires sym.Sane()
      reads this
    {
      if frameCache.Some? then frameCache.value else Resolve(sym, stack)
    }

    /** A new chain: its causes (a root and plain annotations) and its raw
        stack, with nothing resolved yet. */
    constructor (underlying: seq<Error>, stack: seq<nat>)
      requires |underlying| > 0 && AllPlain(underlying)
      ensures this.underlying == underlying && this.stack == stack && frameCache == None
      ensures Valid()
    {
      this.underlying := underlying;
      this.stack := stack;
      frameCache := None;
    }

    /** First: the root cause, a plain error. */
    function First(): (e: Error)
      reads this
      requires Valid()
      ensures e.Plain? && e == underlying[0]
    {
      underlying[0]
    }

    /** Last: the newest annotation, a plain error. */
    function Last(): (e: Error)
      reads this
      requires Valid()
      ensures e.Plain? && e == underlying[|underlying| - 1]
    {
      underlying[|underlying| - 1]
    }

    /** Errors: all causes, root first and newest last. */
    function Errors(): (es: seq<Error>)
      reads this
      requires Valid()
      ensures |es| > 0 && AllPlain(es)
      ensures es[0] == First() && es[|es| - 1] == Last()
    {
      underlying
    }

    /** errorMsgs: the messages from newest to root, each after ": " unless
        nothing has been written yet. */
    method ErrorMsgs() returns (s: string)
      requires Valid()
      ensures s == CombinedMessages(MessagesOf(underlying))
      ensures Last().msg <= s
    {
      ghost var ms := MessagesOf(underlying);
      var buf := "";
      var i := |underlying| - 1;
      assert ms[..i + 1] == ms;
      while i >= 0
        invariant -1 <= i < |underlying|
        invariant WriteNewestFirst(buf, ms[..i + 1]) == CombinedMessages(ms)
      {
        var e := underlying[i];
        assert ms[..i + 1][..i] == ms[..i];
        if |buf| > 0 {
          buf := buf + MessageSeparator;
        }
        buf := buf + e.msg;
        i := i - 1;
      }
      s := buf;
      CombinedStartsWithNewest(ms);
    }

    /** getStack: resolves the raw stack on the first call and keeps the
        result; later calls return the kept frames without touching them,
        even if the symbols or the source files have changed since. */
    method GetStack(sym: Symbols) returns (frames: seq<StackFrame>)
      requires sym.Sane()
      modifies this`frameCache
      ensures frameCache == Some(frames)
      ensures old(frameCache).Some? ==> frameCache == old(frameCache) && frames == old(frameCache).value
      ensures old(frameCache).None? ==> frames == Resolve(sym, stack) && |frames| <= |stack|
    {
      if frameCache.None? {
        frameCache := Some([]);
        var i := 0;
        while i < |stack|
          invariant 0 <= i <= |stack|
          invariant frameCache.Some?
          invariant frameCache.value + Resolve(sym, stack[i..]) == Resolve(sym, stack)
        {
          var pc := stack[i];
          if StopsResolution(sym, pc) {
            break;
          }
          ResolveStep(sym, stack, frameCache.value, i);
          frameCache := Some(frameCache.value + [Frame(sym, pc)]);
          i := i + 1;
        }
        ResolveStop(sym, stack, i);
      }
      frames := frameCache.value;
    }

    /** Stack: the resolved frames, each as "file:line funcName: lineContents",
        separated by "; ". */
    method Stack(sym: Symbols) returns (s: string)
      requires sym.Sane()
      modifies this`frameCache
      ensures frameCache == Some(old(Frames(sym)))
      ensures s == StackText(old(Frames(sym)))
    {
      var frames := GetStack(sym);
      s := WriteFrames(frames);
    }

    /** PrintTolog: the text handed to the log, the combined messages, a
        newline and one two-line block per resolved frame. */
    method PrintTolog(sym: Symbols) returns (logged: string)
      requires Valid() && sym.Sane()
      modifies this`frameCache
      ensures frameCache == Some(old(Frames(sym)))
      ensures logged == LogText(CombinedMessages(MessagesOf(underlying)), old(Frames(sym)))
    {
      var msgs := ErrorMsgs();
      var frames := GetStack(sym);
      logged := WriteLog(msgs, frames);
    }

    /** Error: the combined messages, followed by "; " and the stack when
        `includeStackInError` holds. When `printToLog` holds it also hands
        the log text to the log, returned here as `logged`. Resolving the
        stack for either purpose fills the cache; a filled cache is printed
        as it is. */
    method Error(sym: Symbols, includeStackInError: bool, printToLog: bool) returns (s: string, logged: Option<string>)
      requires Valid() && sym.Sane()
      modifies this`frameCache
      ensures includeStackInError || printToLog ==> frameCache == Some(old(Frames(sym)))
      ensures !includeStackInError && !printToLog ==> frameCache == old(frameCache)
      ensures s == if includeStackInError
        then CombinedMessages(MessagesOf(underlying)) + StackSeparator + StackText(old(Frames(sym)))
        else CombinedMessages(MessagesOf(underlying))
      ensures CombinedMessages(MessagesOf(underlying)) <= s
      ensures logged == if printToLog
        then Some(LogText(CombinedMessages(MessagesOf(underlying)), old(Frames(sym))))
        else None
    {
      logged := None;
      if printToLog {
        var text := PrintTolog(sym);
        logged := Some(text);
      }
      var msgs := ErrorMsgs();
      if includeStackInError {
        var trace := Stack(sym);
        return msgs + StackSeparator + trace, logged;
      }
      return msgs, logged;
    }
  }

  /** The chains a wrap of `e` may change: the chain itself, if it is one. */
  function Targets(e: Error): set<AppError>
  {
    if e.Chain? then {e.chain} else {}
  }

  /** wrapF: nil gives nil; a chain gets the extra errors appended in place
      and is returned as it is, with the same raw stack; any other error
      becomes the root of a new chain followed by the extra errors, whose
      stack is captured once, from the caller of the exported function on. */
  method WrapF(underlying: Error, extraErrors: seq<Error>, callers: seq<nat>) returns (r: AppError?)
    requires underlying.Chain? ==> underlying.chain.Valid()
    requires AllPlain(extraErrors)
    modifies Targets(underlying)
    ensures underlying.Nil? <==> r == null
    ensures underlying.Chain? ==>
      r == underlying.chain && r.underlying == old(r.underlying) + extraErrors && r.frameCache == old(r.frameCache)
    ensures underlying.Plain? ==>
      r != null && fresh(r) && r.underlying == [underlying] + extraErrors
      && r.stack == Drop(callers, CaptureSkip + 2) && r.frameCache == None
    ensures r != null ==> r.Valid() && r.First() == (if underlying.Chain? then old(underlying.chain.First()) else underlying)
  {
    if underlying.Nil? {
      return null;
    }
    if underlying.Chain? {
      var aerr := underlying.chain;
      if |extraErrors| > 0 {
        aerr.underlying := aerr.underlying + extraErrors;
      }
      return aerr;
    }
    var underlyingErrs := [underlying];
    underlyingErrs := underlyingErrs + extraErrors;
    var stack := GetStackPC(callers, CaptureSkip);
    r := new AppError(underlyingErrs, stack);
  }

  /** Wrap: nil gives nil, a chain is returned unchanged, any other error
      becomes the single cause of a new chain. */
  method Wrap(underlying: Error, callers: seq<nat>) returns (r: AppError?)
    requires underlying.Chain? ==> underlying.chain.Valid()
    modifies Targets(underlying)
    ensures underlying.Nil? <==> r == null
    ensures underlying.Chain? ==>
      r == underlying.chain && r.underlying == old(r.underlying) && r.frameCache == old(r.frameCache)
    ensures underlying.Plain? ==>
      r != null && fresh(r) && r.Valid() && r.underlying == [underlying]
      && r.stack == Drop(callers, CaptureSkip + 2) && r.frameCache == None
  {
    r := WrapF(underlying, [], callers);
  }

  /** Wrapf: nil gives nil; otherwise the formatted message becomes a new
      newest cause, appended in place to a chain or following a plain root
      in a new chain. */
  method Wrapf(underlying: Error, message: string, callers: seq<nat>) returns (r: AppError?)
    requires underlying.Chain? ==> underlying.chain.Valid()
    modifies Targets(underlying)
    ensures underlying.Nil? <==> r == null
    ensures underlying.Chain? ==>
      r == underlying.chain && r.Valid() && r.underlying == old(r.underlying) + [Plain(message)]
      && r.frameCache == old(r.frameCache)
    ensures underlying.Plain? ==>
      r != null && fresh(r) && r.Valid() && r.underlying == [underlying, Plain(message)]
      && r.stack == Drop(callers, CaptureSkip + 2) && r.frameCache == None
  {
    if underlying.Nil? {
      return null;
    }
    r := WrapF(underlying, [Plain(message)], callers);
  }

  /** Errorf: a new chain whose only cause is the formatted message. */
  method Errorf(message: string, callers: seq<nat>) returns (r: AppError)
    ensures fresh(r) && r.Valid()
    ensures r.underlying == [Plain(message)] && r.stack == Drop(callers, CaptureSkip + 2) && r.frameCache == None
  {
    var e := WrapF(Plain(message), [], callers);
    r := e;
  }

  /** The capture of a new chain starts at the caller of the exported wrap
      function: runtime.Callers, getStackPC, wrapF and that function are
      left out. When that caller's frame is not a runtime dispatch frame, the
      first part of the stack text is its frame and shows its name. */
  lemma StackStartsAtCaller(sym: Symbols, callers: seq<nat>)
    requires sym.Sane()
    requires |callers| > CaptureSkip + 2 && !StopsResolution(sym, callers[CaptureSkip + 2])
    ensures var frames := Resolve(sym, Drop(callers, CaptureSkip + 2));
      |frames| > 0 && frames[0] == Frame(sym, callers[CaptureSkip + 2])
      && OccursAt(StackText(frames), sym.funcName(callers[CaptureSkip + 2]) + ": ", FuncNameOffset(frames[0]))
  {
    var frames := Resolve(sym, Drop(callers, CaptureSkip + 2));
    StackTextStartsWithFirstFrame(frames);
  }

  /** However deep the call stack, every frame above the wrap site is kept
      when none of them is a runtime dispatch frame. */
  lemma DeepStacksAreKept(sym: Symbols, callers: seq<nat>)
    requires sym.Sane()
    requires forall j :: CaptureSkip + 2 <= j < |callers| ==> !StopsResolution(sym, callers[j])
    ensures |Resolve(sym, Drop(callers, CaptureSkip + 2))| == |Drop(callers, CaptureSkip + 2)|
  {
    var pcs := Drop(callers, CaptureSkip + 2);
    forall j | 0 <= j < |pcs|
      ensures !StopsResolution(sym, pcs[j])
    {
      assert pcs[j] == callers[CaptureSkip + 2 + j];
    }
    ResolveAll(sym, pcs);
  }
}
