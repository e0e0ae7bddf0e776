/** String helpers shared by the filter renderers and by the parsers that invert them. */
module Strings {

  /** An optional value; `None` stands for the source's `null`. Usable with `:-`. */
  datatype Option<+T> = None | Some(value: T) {
    predicate IsFailure() {
      None?
    }

    function PropagateFailure<U>(): Option<U>
      requires None?
    {
      None
    }

    function Extract(): T
      requires Some?
    {
      value
    }
  }

  /** A parsed value together with the input left after it. */
  datatype Parsed<+T> = Parsed(value: T, rest: string)

  /** A character that `String.trim` removes: any code point up to U+0020. */
  predicate IsWhitespace(c: char) {
    c <= ' '
  }

  /** `StringUtils.isNotBlank` for a non-null string: some character is not whitespace. */
  predicate IsNotBlank(s: string) {
    exists i | 0 <= i < |s| :: !IsWhitespace(s[i])
  }

  /** The concatenation of the renderings of `xs`, in order (a `StringBuilder` loop). */
  function Concat<T>(xs: seq<T>, render: T -> string): string {
    if xs == [] then "" else render(xs[0]) + Concat(xs[1..], render)
  }

  /** Rendering a list that grew at the end appends the new element's rendering. */
  lemma {:induction false} ConcatAppend<T>(xs: seq<T>, ys: seq<T>, render: T -> string)
    ensures Concat(xs + ys, render) == Concat(xs, render) + Concat(ys, render)
  {
    if xs == [] {
      assert xs + ys == ys;
    } else {
      assert (xs + ys)[0] == xs[0];
      assert (xs + ys)[1..] == xs[1..] + ys;
      ConcatAppend(xs[1..], ys, render);
    }
  }

  /** `StringUtils.join`: the elements separated by `sep`, nothing before or after. */
  function Join(xs: seq<string>, sep: string): string {
    if |xs| == 0 then ""
    else if |xs| == 1 then xs[0]
    else xs[0] + sep + Join(xs[1..], sep)
  }

  /** Joining one more element adds the separator and that element at the end. */
  lemma {:induction false} JoinAppend(xs: seq<string>, x: string, sep: string)
    ensures Join(xs + [x], sep) == if xs == [] then x else Join(xs, sep) + sep + x
  {
    if |xs| == 0 {
      assert xs + [x] == [x];
    } else if |xs| == 1 {
      assert xs + [x] == [xs[0], x];
      assert [xs[0], x][1..] == [x];
    } else {
      assert (xs + [x])[1..] == xs[1..] + [x];
      JoinAppend(xs[1..], x, sep);
    }
  }

  /**
   * The longest prefix of `s` without `stop`, and the remainder, which is empty
   * or starts with `stop`.
   */
  function TakeUntil(s: string, stop: char): (r: Parsed<string>)
    ensures r.value + r.rest == s
    ensures stop !in r.value
    ensures r.rest == [] || r.rest[0] == stop
    decreases |s|
  {
    if s == [] || s[0] == stop then Parsed([], s)
    else
      var t := TakeUntil(s[1..], stop);
      assert [s[0]] + t.value + t.rest == s;
      Parsed([s[0]] + t.value, t.rest)
  }

  /** `TakeUntil` splits a string exactly where the first `stop` is. */
  lemma {:induction false} TakeUntilSplits(v: string, t: string, stop: char)
    requires stop !in v
    requires t == [] || t[0] == stop
    ensures TakeUntil(v + t, stop) == Parsed(v, t)
  {
    if v == [] {
      assert v + t == t;
    } else {
      assert (v + t)[0] == v[0];
      assert (v + t)[1..] == v[1..] + t;
      TakeUntilSplits(v[1..], t, stop);
      assert [v[0]] + v[1..] == v;
    }
  }

  /** Regrouping a concatenation; stated once so that long proofs can rewrite in small steps. */
  lemma Assoc(a: string, b: string, c: string)
    ensures a + b + c == a + (b + c)
  {
  }

  /** Two lists whose elements render alike, position by position, render alike. */
  lemma {:induction false} ConcatPointwise<T>(xs: seq<T>, ys: seq<T>, render: T -> string)
    requires |xs| == |ys|
    requires forall i :: 0 <= i < |xs| ==> render(xs[i]) == render(ys[i])
    ensures Concat(xs, render) == Concat(ys, render)
    decreases |xs|
  {
    if xs != [] {
      assert render(xs[0]) == render(ys[0]);
      ConcatPointwise(xs[1..], ys[1..], render);
    }
  }

  /** A one-element list renders as that element. */
  lemma ConcatOne<T>(x: T, render: T -> string)
    ensures Concat([x], render) == render(x)
  {
    assert [x][1..] == [];
  }

  /**
   * Growing the middle part of `head + body + close` by `item` is the same as
   * cutting `close` off the old text and appending `item` and `close` again.
   */
  lemma InsertBeforeClose(head: string, body: string, item: string, close: string)
    ensures |head + body + close| >= |close|
    ensures head + (body + item) + close
      == (head + body + close)[..|head + body + close| - |close|] + item + close
  {
    assert (head + body + close)[..|head + body + close| - |close|] == head + body;
  }

  /** A prefix stays a prefix when more text is appended. */
  lemma PrefixExtends(a: string, b: string, c: string)
    requires a <= b
    ensures a <= b + c
  {
    assert (b + c)[..|a|] == b[..|a|];
  }

  /** Removes `prefix` from the front of `s`; fails when `s` does not start with it. */
  function Expect(s: string, prefix: string): (r: Option<string>)
    ensures r.Some? <==> prefix <= s
    ensures r.Some? ==> prefix + r.value == s
  {
    if prefix <= s then Some(s[|prefix|..]) else None
  }

  lemma ExpectPrefix(prefix: string, t: string)
    ensures Expect(prefix + t, prefix) == Some(t)
  {
    assert (prefix + t)[|prefix|..] == t;
  }

  /**
   * Splits `s` at every `sep`: the inverse of `Join` for elements without `sep`.
   * There is always at least one piece, and no piece contains `sep`.
   */
  function Split(s: string, sep: char): (r: seq<string>)
    ensures |r| > 0
    ensures forall i :: 0 <= i < |r| ==> sep !in r[i]
    decreases |s|
  {
    var t := TakeUntil(s, sep);
    if t.rest == [] then [t.value] else [t.value] + Split(t.rest[1..], sep)
  }

  /** Splitting a joined list gives the list back when no element holds the separator. */
  lemma {:induction false} SplitJoin(xs: seq<string>, sep: char)
    requires |xs| > 0
    requires forall i :: 0 <= i < |xs| ==> sep !in xs[i]
    ensures Split(Join(xs, [sep]), sep) == xs
  {
    if |xs| == 1 {
      TakeUntilSplits(xs[0], [], sep);
      assert xs[0] + [] == xs[0];
    } else {
      var s, more, tail := Join(xs, [sep]), xs[1..], Join(xs[1..], [sep]);
      assert s == xs[0] + ([sep] + tail);
      TakeUntilSplits(xs[0], [sep] + tail, sep);
      var t := TakeUntil(s, sep);
      assert t.value == xs[0] && t.rest == [sep] + tail;
      assert t.rest[1..] == tail;
      assert Split(s, sep) == [xs[0]] + Split(tail, sep);
      forall i | 0 <= i < |more| ensures sep !in more[i] {
        assert more[i] == xs[i + 1];
      }
      SplitJoin(more, sep);
      assert xs == [xs[0]] + more;
    }
  }

  /** Joining the pieces of a split gives the original string back. */
  lemma {:induction false} JoinSplit(s: string, sep: char)
    ensures Join(Split(s, sep), [sep]) == s
    decreases |s|
  {
    var t := TakeUntil(s, sep);
    if t.rest != [] {
      JoinSplit(t.rest[1..], sep);
      assert t.rest == [sep] + t.rest[1..];
      var pieces := Split(s, sep);
      assert pieces[1..] == Split(t.rest[1..], sep);
    }
  }
}
