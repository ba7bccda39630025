/** appb/write-args.c: the arguments, one to a line, gathered into one write. */
module WriteArgs {
  import opened Files

  const NEWLINE: byte := 10

  datatype IoVec = IoVec(base: seq<byte>, len: nat)

  predicate Sound(v: IoVec) { v.len <= |v.base| }

  /** What writev transfers. */
  function Gathered(vec: seq<IoVec>): seq<byte>
    requires forall k | 0 <= k < |vec| :: Sound(vec[k])
  {
    if vec == [] then []
    else
      assert Sound(vec[0]);
      vec[0].base[..vec[0].len] + Gathered(vec[1..])
  }

  /** The two elements for each argument: its text and a newline. */
  function Vector(args: seq<seq<byte>>): (vec: seq<IoVec>)
    ensures |vec| == 2 * |args| && forall k | 0 <= k < |vec| :: Sound(vec[k])
  {
    if args == [] then [] else [IoVec(args[0], |args[0]|), IoVec([NEWLINE], 1)] + Vector(args[1..])
  }

  /** Every argument followed by a newline. */
  function ArgsText(args: seq<seq<byte>>): seq<byte>
  {
    if args == [] then [] else args[0] + [NEWLINE] + ArgsText(args[1..])
  }

  lemma {:induction false} GatherIsText(args: seq<seq<byte>>)
    ensures Gathered(Vector(args)) == ArgsText(args)
  {
    if args != [] {
      var vec := Vector(args);
      assert vec[1..][1..] == Vector(args[1..]);
      GatherIsText(args[1..]);
      assert Gathered(vec[1..]) == [NEWLINE] + Gathered(Vector(args[1..]));
    }
  }

  lemma {:induction false} VectorAppend(args: seq<seq<byte>>, arg: seq<byte>)
    ensures Vector(args + [arg]) == Vector(args) + [IoVec(arg, |arg|), IoVec([NEWLINE], 1)]
  {
    if args == [] {
      assert args + [arg] == [arg] && [arg][1..] == [];
    } else {
      assert (args + [arg])[1..] == args[1..] + [arg];
      VectorAppend(args[1..], arg);
    }
  }

  // ---------------------------------------------------------------- reading it back

  function FindNewline(text: seq<byte>): (k: nat)
    ensures k <= |text| && (k < |text| ==> text[k] == NEWLINE) && NEWLINE !in text[..k]
  {
    if text == [] || text[0] == NEWLINE then 0 else
      assert text[..FindNewline(text[1..]) + 1] == [text[0]] + text[1..][..FindNewline(text[1..])];
      FindNewline(text[1..]) + 1
  }

  /** The lines of a text; a newline ends a line. */
  function SplitLines(text: seq<byte>): seq<seq<byte>>
    decreases |text|
  {
    var k := FindNewline(text);
    if text == [] then []
    else if k == |text| then [text]
    else [text[..k]] + SplitLines(text[k + 1..])
  }

  lemma {:induction false} LinesHaveNoNewline(text: seq<byte>)
    ensures forall line | line in SplitLines(text) :: NEWLINE !in line
    decreases |text|
  {
    var k := FindNewline(text);
    if k < |text| {
      LinesHaveNoNewline(text[k + 1..]);
    } else {
      assert text[..k] == text;
    }
  }

  lemma {:induction false} FirstNewline(arg: seq<byte>, rest: seq<byte>)
    requires NEWLINE !in arg
    ensures FindNewline(arg + [NEWLINE] + rest) == |arg|
  {
    var text := arg + [NEWLINE] + rest;
    assert text[|arg|] == NEWLINE && forall k | 0 <= k < |arg| :: text[k] == arg[k];
    assert forall k | |arg| < k <= |text| :: text[..k][|arg|] == NEWLINE;
  }

  lemma {:induction false} FirstLine(arg: seq<byte>, rest: seq<byte>)
    requires NEWLINE !in arg
    ensures SplitLines(arg + [NEWLINE] + rest) == [arg] + SplitLines(rest)
  {
    var text := arg + [NEWLINE] + rest;
    FirstNewline(arg, rest);
    assert text[..|arg|] == arg && text[|arg| + 1..] == rest;
  }

  lemma {:induction false} ArgsTextTail(args: seq<seq<byte>>, tail: seq<byte>)
    requires args != []
    ensures ArgsText(args) + tail == args[0] + [NEWLINE] + (ArgsText(args[1..]) + tail)
  {}

  lemma FirstAndRest<T>(a: seq<T>, b: seq<T>)
    requires a != []
    ensures [a[0]] + (a[1..] + b) == a + b
  {}

  /** Plain arguments, and then the lines of whatever follows them. */
  lemma {:induction false} LinesBefore(args: seq<seq<byte>>, tail: seq<byte>)
    requires forall arg | arg in args :: NEWLINE !in arg
    ensures SplitLines(ArgsText(args) + tail) == args + SplitLines(tail)
  {
    if args == [] {
      assert ArgsText(args) + tail == tail && args + SplitLines(tail) == SplitLines(tail);
    } else {
      ArgsTextTail(args, tail);
      FirstLine(args[0], ArgsText(args[1..]) + tail);
      LinesBefore(args[1..], tail);
      FirstAndRest(args, SplitLines(tail));
    }
  }

  /** The file's lines are the arguments exactly when no argument contains a newline. */
  lemma {:induction false} RoundTripIff(args: seq<seq<byte>>)
    ensures SplitLines(ArgsText(args)) == args <==> forall arg | arg in args :: NEWLINE !in arg
  {
    LinesHaveNoNewline(ArgsText(args));
    if forall arg | arg in args :: NEWLINE !in arg {
      LinesBefore(args, []);
      assert ArgsText(args) + [] == ArgsText(args) && args + [] == args;
    }
  }

  /** open without O_TRUNC: a file that was longer keeps its tail, so the text stands alone only if it was not. */
  lemma OldTailStays(before: seq<byte>, text: seq<byte>)
    ensures Overlay(before, 0, text) == text + before[Min(|text|, |before|)..]
    ensures Overlay(before, 0, text) == text <==> |before| <= |text|
  {
    assert before[..0] + text == text;
    if |before| > |text| {
      assert |Overlay(before, 0, text)| == |before|;
    }
  }

  /** The file reads back as the arguments exactly when they are plain and nothing of the old file is left. */
  lemma {:induction false} ReadsBackIff(before: seq<byte>, args: seq<seq<byte>>)
    ensures SplitLines(Overlay(before, 0, ArgsText(args))) == args <==>
      (forall arg | arg in args :: NEWLINE !in arg) && |before| <= |ArgsText(args)|
  {
    var text := ArgsText(args);
    var tail := before[Min(|text|, |before|)..];
    OldTailStays(before, text);
    LinesHaveNoNewline(text + tail);
    if forall arg | arg in args :: NEWLINE !in arg {
      LinesBefore(args, tail);
      assert tail == [] <==> SplitLines(tail) == [];
      assert |args + SplitLines(tail)| == |args| + |SplitLines(tail)|;
      assert args + [] == args;
    }
  }

  // ---------------------------------------------------------------- the program

  /** Lines 33-45: two entries for each argument, through a pointer that moves along the array. */
  method BuildVector(args: seq<seq<byte>>) returns (vec: array<IoVec>)
    ensures fresh(vec) && vec[..] == Vector(args)
  {
    vec := new IoVec[2 * |args|];
    var next := 0;
    for i := 0 to |args|
      invariant next == 2 * i && vec[..next] == Vector(args[..i])
    {
      VectorAppend(args[..i], args[i]);
      assert args[..i + 1] == args[..i] + [args[i]];
      vec[next] := IoVec(args[i], |args[i]|);
      next := next + 1;
      vec[next] := IoVec([NEWLINE], 1);
      next := next + 1;
    }
    assert args[..|args|] == args;
  }

  /**
   * Lines 33-49: one gather write at the start of the file; 10 is '\n' (line 18). Its lines are then the arguments
   * exactly when no argument contains a newline and no old contents stick out behind them.
   */
  method WriteArguments(file: File, args: seq<seq<byte>>)
    requires file.offset == 0
    modifies file
    ensures file.data == Overlay(old(file.data), 0, ArgsText(args))
    ensures SplitLines(file.data) == args <==>
      (forall arg | arg in args :: (10 as byte) !in arg) && |old(file.data)| <= |ArgsText(args)|
    ensures |args| > 0 ==> |args[0]| < |file.data| && file.data[..|args[0]|] == args[0] && file.data[|args[0]|] == 10
  {
    var vec := BuildVector(args);
    GatherIsText(args);
    file.Write(Gathered(vec[..]));
    ReadsBackIff(old(file.data), args);
    OldTailStays(old(file.data), ArgsText(args));
  }
}
