/** The cases of the package's tests, replayed as a client of the contracts:
    what each test checks follows from the specifications alone. */
module ErrorsTest {
  import opened Optional
  import opened Strings
  import opened StackTrace
  import opened Errors

  /** TestErrors, "Wrap simple error": one cause, the message first in the
      error string, and the first stack part is the test function's frame.
      `callers` is the call stack at the wrap site; its entry
      CaptureSkip + 2 is the test function's own frame. */
  method TestWrapSimpleError(sym: Symbols, callers: seq<nat>)
    requires sym.Sane()
    requires |callers| > CaptureSkip + 2 && !StopsResolution(sym, callers[CaptureSkip + 2])
  {
    var simpleErr := Plain("test");
    var got := Wrap(simpleErr, callers);
    assert got.Errors() == [simpleErr];
    var s, logged := got.Error(sym, true, true);
    assert MessagesOf([simpleErr]) == ["test"];
    CombinedStartsWithNewest(["test"]);
    assert "test" <= s;
    var trace := got.Stack(sym);
    StackStartsAtCaller(sym, callers);
    assert OccursAt(trace, sym.funcName(callers[CaptureSkip + 2]) + ": ", FuncNameOffset(Frame(sym, callers[CaptureSkip + 2])));
  }

  /** TestErrors, "Wrapf simple error": the message follows the root, and
      the combined message shows it first. */
  method TestWrapfSimpleError(callers: seq<nat>)
  {
    var simpleErr := Plain("test");
    var fmtErr := Plain("err 1 2 4");
    var got := Wrapf(simpleErr, fmtErr.msg, callers);
    assert got.Errors() == [simpleErr, fmtErr];
    var msgs := got.ErrorMsgs();
    assert MessagesOf([simpleErr, fmtErr]) == ["test"] + ["err 1 2 4"];
    assert CombinedMessages(["test"]) == "test";
    AnnotationGoesFirst(["test"], "err 1 2 4");
    assert msgs == "err 1 2 4: test";
  }

  /** TestErrors, "Errorf": the formatted message is the only cause. */
  method TestErrorf(callers: seq<nat>)
  {
    var got := Errorf("err 1 2 4", callers);
    assert got.Errors() == [Plain("err 1 2 4")];
  }

  /** TestErrors, "Wrap ae.Err": the same chain comes back, unchanged. */
  method TestWrapChain(callers: seq<nat>)
  {
    var simpleErr := Plain("test");
    var base := Wrap(simpleErr, callers);
    var got := Wrap(Chain(base), callers);
    assert got == base && got.Errors() == [simpleErr];
  }

  /** TestErrors, "Wrapf ae.Err": the message is appended in place and the
      stack captured first is kept. */
  method TestWrapfChain(callers: seq<nat>)
  {
    var simpleErr := Plain("test");
    var fmtErr := Plain("err 1 2 4");
    var base := Wrap(simpleErr, callers);
    var stackBefore := base.stack;
    var got := Wrapf(Chain(base), fmtErr.msg, callers);
    assert got == base && got.Errors() == [simpleErr, fmtErr];
    assert got.stack == stackBefore && got.First() == simpleErr;
  }

  /** TestWrapNested: a chain created 200 calls deep keeps every one of
      those frames in its resolved stack. */
  method TestWrapNested(sym: Symbols, callers: seq<nat>)
    requires sym.Sane()
    requires |callers| >= CaptureSkip + 2 + 200
    requires forall j :: CaptureSkip + 2 <= j < |callers| ==> !StopsResolution(sym, callers[j])
  {
    var got := Errorf("nested", callers);
    var frames := got.GetStack(sym);
    DeepStacksAreKept(sym, callers);
    assert |frames| >= 200;
  }

  /** getStack resolves once: a second call returns the frames of the first,
      and Stack prints them, even when the symbols (or the source files
      behind them) have changed. */
  method TestStackIsResolvedOnce(sym: Symbols, later: Symbols, callers: seq<nat>)
    requires sym.Sane() && later.Sane()
  {
    var got := Errorf("once", callers);
    var first := got.GetStack(sym);
    assert first == Resolve(sym, got.stack);
    var second := got.GetStack(later);
    assert second == first;
    var trace := got.Stack(later);
    assert trace == StackText(Resolve(sym, got.stack));
  }

  /** TestWrapNil: wrapping nil, with or without a message, gives nil. */
  method TestWrapNil(callers: seq<nat>)
  {
    var got := Wrap(Nil, callers);
    assert got == null;
    got := Wrapf(Nil, "message 1", callers);
    assert got == null;
  }
}
