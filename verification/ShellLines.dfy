/** The shell's line assembler: one callback per received character, one static buffer, lines
    handed to a one-item stream. */
module ShellLines {
  import opened Wrappers
  import opened CBytes
  import opened XStream

  const BUFSIZE: nat := 128
  const STREAM_SIZE: nat := 2
  const CR: byte := 13
  const LF: byte := 10

  predicate Ignored(ch: byte) {
    ch == CR || ch == LF
  }

  class Shell {
    var buf: seq<byte>
    const stream: Stream<seq<byte>>

    ghost predicate Valid()
      reads this, stream
    {
      |buf| <= BUFSIZE && stream.Valid() && stream.size == 2
    }

    constructor ()
      ensures Valid() && fresh(stream) && buf == [] && stream.queue == []
    {
      buf := [];
      stream := new Stream(STREAM_SIZE);
    }

    /** A character is dropped while a line waits. A NUL ends the line; if it does not fit, the
        line is dropped, but the NUL that replaces it stays in the buffer as well. The stream
        always has room. */
    method OnChar(ch: byte) returns (ok: bool)
      requires Valid()
      modifies this`buf, stream
      ensures Valid() && ok
      ensures old(stream.queue) != [] ==> buf == old(buf) && stream.queue == old(stream.queue)
      ensures old(stream.queue) == [] ==> (buf, stream.queue) == AfterChar(old(buf), ch)
    {
      ok := true;
      if |stream.queue| == 0 {
        if ch == 0 {
          var line;
          if |buf| < BUFSIZE {
            line := buf + [ch];
            buf := [];
          } else {
            buf := [];
            buf := buf + [ch];
            line := buf;
            assert line == [0];
          }
          ok := stream.Add(line);
          assert stream.queue == [line];
        } else if Ignored(ch) {
        } else {
          if |buf| < BUFSIZE {
            buf := buf + [ch];
          }
        }
      }
    }

    /** A whole input, with the shell's task keeping up. */
    method Type(input: seq<byte>, task: nat) returns (lines: seq<seq<byte>>)
      requires Valid() && buf == [] && stream.queue == []
      modifies this`buf, stream
      ensures Valid() && stream.queue == []
      ensures lines == Lines(input, false)
    {
      lines := [];
      var i := 0;
      while i < |input|
        invariant 0 <= i <= |input|
        invariant Valid() && stream.queue == []
        invariant lines + Assembled(buf, input[i..]) == Assembled([], input)
      {
        assert input[i..][1..] == input[i + 1..];
        var ok := OnChar(input[i]);
        ghost var handed := stream.queue;
        var line := stream.PollNext(task);
        lines := lines + (if line.Some? then [line.value] else []);
        assert handed == if line.Some? then [line.value] else [];
        i := i + 1;
      }
      assert input[|input|..] == [];
      AssemblesLines(input, false);
    }
  }

  /** The buffer and the line handed over, if any, after one character. */
  function AfterChar(buf: seq<byte>, ch: byte): (seq<byte>, seq<seq<byte>>) {
    if ch == 0 then
      if |buf| < BUFSIZE then ([], [buf + [0]]) else ([0], [[0]])
    else if Ignored(ch) || |buf| >= BUFSIZE then (buf, [])
    else (buf + [ch], [])
  }

  function Assembled(buf: seq<byte>, input: seq<byte>): seq<seq<byte>>
    decreases |input|
  {
    if input == [] then [] else
    var (buf1, lines) := AfterChar(buf, input[0]);
    lines + Assembled(buf1, input[1..])
  }

  // What a user means by lines.

  /** The characters of a piece of input that count. */
  function Kept(s: seq<byte>): (r: seq<byte>)
    ensures 0 !in s ==> 0 !in r
  {
    if s == [] then [] else (if Ignored(s[0]) then [] else [s[0]]) + Kept(s[1..])
  }

  /** What counts: every character but 10 and 13, in the order typed. */
  lemma {:induction false} KeptJoins(s: seq<byte>, t: seq<byte>)
    ensures Kept(s + t) == Kept(s) + Kept(t)
  {
    if s == [] {
      assert s + t == t;
    } else {
      assert (s + t)[1..] == s[1..] + t;
      KeptJoins(s[1..], t);
    }
  }

  lemma {:induction false} KeptWhat(s: seq<byte>, c: byte)
    ensures multiset(Kept(s))[c] == if c == 10 || c == 13 then 0 else multiset(s)[c]
  {
    if s == [] {
    } else {
      var rest := Kept(s[1..]);
      KeptWhat(s[1..], c);
      assert Kept(s) == (if Ignored(s[0]) then [] else [s[0]]) + rest;
      hide Kept;
      assert s == [s[0]] + s[1..];
      assert multiset(s)[c] == (if s[0] == c then 1 else 0) + multiset(s[1..])[c];
      assert Ignored(s[0]) ==> Kept(s) == rest;
    }
  }

  function Prefix(carry: bool): seq<byte> {
    if carry then [0] else []
  }

  /** The lines of an input: the kept characters up to each NUL, with the NUL. A line that has
      no room for its NUL within 128 bytes becomes a lone NUL, and the next line then begins
      with one, which counts towards its 128 bytes. */
  function Lines(input: seq<byte>, carry: bool): seq<seq<byte>>
    decreases |input|
  {
    var head := CString(input);
    if |head| == |input| then [] else
    var line := Prefix(carry) + Kept(head);
    var rest := input[|head| + 1..];
    if |line| < BUFSIZE then [line + [0]] + Lines(rest, false)
    else [[0]] + Lines(rest, true)
  }

  function Capped(s: seq<byte>): seq<byte> {
    if |s| <= BUFSIZE then s else s[..BUFSIZE]
  }

  lemma AssembledStep(buf: seq<byte>, ch: byte, rest: seq<byte>)
    ensures Assembled(buf, [ch] + rest) == AfterChar(buf, ch).1 + Assembled(AfterChar(buf, ch).0, rest)
  {
    assert ([ch] + rest)[1..] == rest;
  }

  lemma CappedAgain(buf: seq<byte>, t: seq<byte>)
    requires |buf| >= BUFSIZE
    ensures Capped(buf + t) == Capped(buf)
  {
    assert (buf + t)[..BUFSIZE] == buf[..BUFSIZE];
    assert |buf| == BUFSIZE ==> buf[..BUFSIZE] == buf;
    assert |buf + t| == BUFSIZE ==> buf + t == (buf + t)[..BUFSIZE];
  }

  /** A kept character goes into the buffer if there is room. */
  lemma CappedStep(buf: seq<byte>, s: seq<byte>)
    requires s != [] && s[0] != 0 && |buf| <= BUFSIZE
    ensures AfterChar(buf, s[0]).1 == [] && |AfterChar(buf, s[0]).0| <= BUFSIZE
    ensures Capped(buf + Kept(s)) == Capped(AfterChar(buf, s[0]).0 + Kept(s[1..]))
  {
    hide Capped;
    var rest := Kept(s[1..]);
    assert Kept(s) == (if Ignored(s[0]) then [] else [s[0]]) + rest;
    hide Kept;
    if Ignored(s[0]) {
      assert [] + rest == rest;
    } else if |buf| < BUFSIZE {
      assert buf + ([s[0]] + rest) == (buf + [s[0]]) + rest;
    } else {
      CappedAgain(buf, [s[0]] + rest);
      CappedAgain(buf, rest);
    }
  }

  /** Characters before the next NUL only fill the buffer, up to its size. */
  lemma {:induction false} Fills(buf: seq<byte>, s: seq<byte>, rest: seq<byte>)
    requires 0 !in s && |buf| <= BUFSIZE
    ensures Assembled(buf, s + rest) == Assembled(Capped(buf + Kept(s)), rest)
    decreases |s|
  {
    if s == [] {
      assert s + rest == rest;
      assert buf + Kept(s) == buf;
    } else {
      hide Assembled, Kept, Capped, AfterChar;
      assert s + rest == [s[0]] + (s[1..] + rest);
      AssembledStep(buf, s[0], s[1..] + rest);
      CappedStep(buf, s);
      Fills(AfterChar(buf, s[0]).0, s[1..], rest);
    }
  }

  lemma SplitAtNul(head: seq<byte>, rest: seq<byte>)
    requires 0 !in head
    ensures var input := head + ([0] + rest);
            CString(head) == head == CString(input) && |head| < |input| && input[|head| + 1..] == rest
  {
    var input := head + ([0] + rest);
    CStringUnique(head, head);
    assert input[|head|] == 0;
    CStringUnique(input, head);
  }

  lemma LinesStep(head: seq<byte>, rest: seq<byte>, carry: bool)
    requires 0 !in head
    ensures Lines(head, carry) == []
    ensures var line := Prefix(carry) + Kept(head);
            Lines(head + ([0] + rest), carry)
            == (if |line| < BUFSIZE then [line + [0]] else [[0]]) + Lines(rest, |line| >= BUFSIZE)
  {
    hide CString, Kept;
    SplitAtNul(head, rest);
  }

  /** Character by character, the assembler produces exactly those lines. */
  lemma {:induction false} AssemblesLines(input: seq<byte>, carry: bool)
    ensures Assembled(Prefix(carry), input) == Lines(input, carry)
    decreases |input|
  {
    hide Lines, Kept, Assembled, Capped;
    var head := CString(input);
    var line := Prefix(carry) + Kept(head);
    if |head| == |input| {
      assert input == head + [];
      Fills(Prefix(carry), head, []);
      NothingAssembled(Capped(line));
      LinesStep(head, [], carry);
      assert input == head;
    } else {
      var rest := input[|head| + 1..];
      assert input == head + ([0] + rest);
      Fills(Prefix(carry), head, [0] + rest);
      AssembledStep(Capped(line), 0, rest);
      CappedFits(line);
      AssemblesLines(rest, |line| >= BUFSIZE);
      LinesStep(head, rest, carry);
    }
  }

  lemma NothingAssembled(buf: seq<byte>)
    ensures Assembled(buf, []) == []
  {
  }

  lemma CappedFits(s: seq<byte>)
    ensures |s| < BUFSIZE ==> Capped(s) == s
    ensures |s| >= BUFSIZE ==> |Capped(s)| == BUFSIZE
  {
  }

  // What the command handler reads.

  /** The lines as typed: the kept characters before each NUL. */
  function Typed(input: seq<byte>): seq<seq<byte>>
    decreases |input|
  {
    var head := CString(input);
    if |head| == |input| then [] else [Kept(head)] + Typed(input[|head| + 1..])
  }

  function Lengths(lines: seq<seq<byte>>): seq<nat> {
    seq(|lines|, k requires 0 <= k < |lines| => |lines[k]|)
  }

  function NulCount(carry: bool): nat {
    if carry then 1 else 0
  }

  /** Does line k start with a NUL left over from the line before it? It does if that line, with
      its own leftover NUL, filled the buffer. */
  predicate Carried(carry: bool, lengths: seq<nat>, k: nat)
    requires k <= |lengths|
  {
    if k == 0 then carry else lengths[k - 1] + NulCount(Carried(carry, lengths, k - 1)) >= BUFSIZE
  }

  /** The lines the handler reads as empty, from their typed lengths alone. */
  predicate Silenced(lengths: seq<nat>, k: nat)
    requires k < |lengths|
  {
    Carried(false, lengths, k) || lengths[k] >= BUFSIZE
  }

  lemma {:induction false} CarriedShift(carry: bool, lengths: seq<nat>, k: nat)
    requires k < |lengths|
    ensures Carried(carry, lengths, k + 1) == Carried(lengths[0] + NulCount(carry) >= BUFSIZE, lengths[1..], k)
  {
    if k == 0 {
    } else {
      CarriedShift(carry, lengths, k - 1);
    }
  }

  lemma TypedStep(head: seq<byte>, rest: seq<byte>)
    requires 0 !in head
    ensures Typed(head) == []
    ensures Typed(head + ([0] + rest)) == [Kept(head)] + Typed(rest)
  {
    hide CString, Kept;
    SplitAtNul(head, rest);
  }

  /** Line k in terms of what was typed. */
  ghost predicate LineIs(line: seq<byte>, typed: seq<byte>, carried: bool) {
    line == if |typed| + NulCount(carried) < BUFSIZE then Prefix(carried) + typed + [0] else [0]
  }

  lemma {:induction false} LineContents(input: seq<byte>, carry: bool, k: nat)
    requires k < |Typed(input)|
    ensures |Lines(input, carry)| == |Typed(input)|
    ensures LineIs(Lines(input, carry)[k], Typed(input)[k], Carried(carry, Lengths(Typed(input)), k))
    decreases |input|
  {
    hide Lines, Kept, Typed;
    var head := CString(input);
    if |head| == |input| {
      assert input == head;
      TypedStep(head, []);
      assert false;
    } else {
      var rest := input[|head| + 1..];
      assert input == head + ([0] + rest);
      LinesStep(head, rest, carry);
      TypedStep(head, rest);
      var carry' := |Prefix(carry) + Kept(head)| >= BUFSIZE;
      SameCount(rest, carry');
      if k > 0 {
        LineContents(rest, carry', k - 1);
        assert Lengths(Typed(input))[1..] == Lengths(Typed(rest));
        CarriedShift(carry, Lengths(Typed(input)), k - 1);
      }
    }
  }

  /** There are as many lines as were typed. */
  lemma {:induction false} SameCount(input: seq<byte>, carry: bool)
    ensures |Lines(input, carry)| == |Typed(input)|
    decreases |input|
  {
    hide Lines, Kept, Typed;
    var head := CString(input);
    if |head| == |input| {
      assert input == head;
      LinesStep(head, [], carry);
      TypedStep(head, []);
    } else {
      var rest := input[|head| + 1..];
      assert input == head + ([0] + rest);
      LinesStep(head, rest, carry);
      TypedStep(head, rest);
      SameCount(rest, |Prefix(carry) + Kept(head)| >= BUFSIZE);
    }
  }

  /** A typed line holds no NUL, line feed or carriage return. */
  lemma {:induction false} TypedIsClean(input: seq<byte>, k: nat)
    requires k < |Typed(input)|
    ensures 0 !in Typed(input)[k] && 10 !in Typed(input)[k] && 13 !in Typed(input)[k]
    decreases |input|
  {
    if k == 0 {
      KeptWhat(CString(input), 10);
      KeptWhat(CString(input), 13);
      assert multiset(Typed(input)[0])[10] == 0 && multiset(Typed(input)[0])[13] == 0;
    } else {
      TypedIsClean(input[|CString(input)| + 1..], k - 1);
    }
  }

  /** The handler reads line k as it was typed, unless it is silenced: then it reads nothing. */
  lemma HandlerReads(input: seq<byte>, k: nat)
    requires k < |Typed(input)|
    ensures |Lines(input, false)| == |Typed(input)|
    ensures CString(Lines(input, false)[k])
            == if Silenced(Lengths(Typed(input)), k) then [] else Typed(input)[k]
  {
    hide Lines, Typed, Carried;
    LineContents(input, false, k);
    TypedIsClean(input, k);
    var line, typed := Lines(input, false)[k], Typed(input)[k];
    if Silenced(Lengths(Typed(input)), k) {
      CStringUnique(line, []);
    } else {
      CStringUnique(line, typed);
    }
  }

  lemma {:induction false} NothingCarried(lengths: seq<nat>, k: nat)
    requires k <= |lengths| && forall j :: 0 <= j < |lengths| ==> lengths[j] < BUFSIZE
    ensures !Carried(false, lengths, k)
  {
    if k == 0 {
    } else {
      NothingCarried(lengths, k - 1);
    }
  }

  /** Every line of an input is read as typed if and only if none has 128 characters. */
  lemma AllReadExactly(input: seq<byte>)
    ensures |Lines(input, false)| == |Typed(input)|
    ensures (forall k :: 0 <= k < |Typed(input)| ==> CString(Lines(input, false)[k]) == Typed(input)[k])
            <==> (forall k :: 0 <= k < |Typed(input)| ==> |Typed(input)[k]| < 128)
  {
    hide Lines, Typed, Carried, CString;
    SameCount(input, false);
    var lengths := Lengths(Typed(input));
    forall k | 0 <= k < |Typed(input)|
      ensures CString(Lines(input, false)[k]) == if Silenced(lengths, k) then [] else Typed(input)[k]
    {
      HandlerReads(input, k);
    }
    if forall k :: 0 <= k < |Typed(input)| ==> |Typed(input)[k]| < BUFSIZE {
      forall k | 0 <= k < |Typed(input)| ensures !Silenced(lengths, k) {
        NothingCarried(lengths, k);
      }
    }
  }

  /** One overlong line silences every line after it as long as these have 127 characters, and
      one more: here a line of a single character, two lines later. */
  lemma SilencedTwoLinesLater(a: byte, c: byte)
    requires a !in [0, 10, 13] && c !in [0, 10, 13]
    ensures var input := Repeat(a, 128) + ([0] + (Repeat(a, 127) + ([0] + ([c] + ([0] + [])))));
            && Typed(input) == [Repeat(a, 128), Repeat(a, 127), [c]]
            && Lines(input, false) == [[0], [0], [0, c, 0]]
            && CString(Lines(input, false)[2]) == []
  {
    hide Lines, Kept, Typed;
    KeptAll(Repeat(a, BUFSIZE));
    KeptAll(Repeat(a, BUFSIZE - 1));
    KeptAll([c]);
    var last := [c] + ([0] + []);
    var second := Repeat(a, BUFSIZE - 1) + ([0] + last);
    var input := Repeat(a, BUFSIZE) + ([0] + second);
    TypedStep([], []);
    TypedStep([c], []);
    TypedStep(Repeat(a, BUFSIZE - 1), last);
    TypedStep(Repeat(a, BUFSIZE), second);
    LinesStep([], [], false);
    LinesStep([c], [], true);
    assert (Prefix(true) + [c]) + [0] == [0, c, 0];
    assert Lines(last, true) == [[0, c, 0]];
    LinesStep(Repeat(a, BUFSIZE - 1), last, true);
    LinesStep(Repeat(a, BUFSIZE), second, false);
    CStringUnique([0, c, 0], []);
  }

  function Repeat(a: byte, n: nat): seq<byte> {
    seq(n, _ => a)
  }

  lemma {:induction false} KeptAll(s: seq<byte>)
    requires forall i :: 0 <= i < |s| ==> s[i] != 10 && s[i] != 13
    ensures Kept(s) == s
  {
    if s == [] {
    } else {
      KeptAll(s[1..]);
      assert s == [s[0]] + s[1..];
    }
  }

  /** Every line fits the buffer and is NUL-terminated. */
  lemma {:induction false} LinesAreTerminated(input: seq<byte>, carry: bool, k: nat)
    requires k < |Lines(input, carry)|
    ensures var line := Lines(input, carry)[k]; 0 < |line| <= BUFSIZE && line[|line| - 1] == 0
    decreases |input|
  {
    hide Lines, Kept;
    var head := CString(input);
    if |head| == |input| {
      assert input == head;
      LinesStep(head, [], carry);
      assert false;
    }
    var rest := input[|head| + 1..];
    assert input == head + ([0] + rest);
    LinesStep(head, rest, carry);
    if k > 0 {
      LinesAreTerminated(rest, |Prefix(carry) + Kept(head)| >= BUFSIZE, k - 1);
    }
  }
}
