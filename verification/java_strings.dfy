/**
 * The two `java.lang.String` operations the core's behaviour hangs on:
 * `hashCode()`, which keys general messages and their listeners, and
 * `split(", ")`, which turns a BungeeCord player list into names.
 */
module JavaStrings {
  import opened JavaLang

  const TWO_32: int := 0x1_0000_0000

  /** An `int` result of arithmetic that overflowed: two's complement wrap-around. */
  function Wrap32(x: int): (r: int32)
    ensures (r - x) % TWO_32 == 0
  {
    var m := x % TWO_32;
    if m >= 0x8000_0000 then m - TWO_32 else m
  }

  /** `String.hashCode()`: `h = 31 * h + c` over the units, in `int` arithmetic. */
  function HashCode(s: JString): (h: int32)
    ensures s == [] ==> h == 0
    ensures |s| == 1 ==> h == s[0]
    decreases |s|
  {
    if s == [] then 0 else Wrap32(31 * HashCode(s[..|s| - 1]) + s[|s| - 1])
  }

  /** The same polynomial, s[0]*31^(n-1) + … + s[n-1], without overflow. */
  function Polynomial(s: JString): int
    decreases |s|
  {
    if s == [] then 0 else 31 * Polynomial(s[..|s| - 1]) + s[|s| - 1]
  }

  function Pow31(n: nat): (r: nat)
    ensures r >= 1
  {
    if n == 0 then 1 else 31 * Pow31(n - 1)
  }

  /** Two numbers that agree modulo 2^32 wrap to the same `int`. */
  lemma WrapCongruent(x: int, y: int)
    requires (x - y) % TWO_32 == 0
    ensures Wrap32(x) == Wrap32(y)
  {
    var k := (x - y) / TWO_32;
    assert x == y + k * TWO_32;
    assert x % TWO_32 == y % TWO_32;
  }

  /** Congruence modulo 2^32 survives scaling and adding the same unit. */
  lemma StepCongruent(x: int, y: int, c: int)
    requires (x - y) % TWO_32 == 0
    ensures ((31 * x + c) - (31 * y + c)) % TWO_32 == 0
  {
    var d := (x - y) / TWO_32;
    assert x - y == d * TWO_32;
    assert (31 * x + c) - (31 * y + c) == (31 * d) * TWO_32;
  }

  /** Overflowing at every step or only at the end gives the same hash. */
  lemma {:induction false} HashCodeIsPolynomial(s: JString)
    ensures HashCode(s) == Wrap32(Polynomial(s))
    decreases |s|
  {
    if s != [] {
      var init := s[..|s| - 1];
      var c := s[|s| - 1];
      HashCodeIsPolynomial(init);
      var h := HashCode(init);
      var p := Polynomial(init);
      assert (h - Wrap32(p)) % TWO_32 == 0;
      assert (h - p) % TWO_32 == 0 by {
        assert (Wrap32(p) - p) % TWO_32 == 0;
        var a := (Wrap32(p) - p) / TWO_32;
        assert Wrap32(p) - p == a * TWO_32;
        assert h == Wrap32(p);
      }
      StepCongruent(h, p, c);
      WrapCongruent(31 * h + c, 31 * p + c);
    }
  }

  /** The polynomial of a concatenation. */
  lemma {:induction false} PolynomialAppend(s: JString, t: JString)
    ensures Polynomial(s + t) == Pow31(|t|) * Polynomial(s) + Polynomial(t)
    decreases |t|
  {
    if t == [] {
      assert s + t == s;
    } else {
      var init := t[..|t| - 1];
      assert (s + t)[..|s + t| - 1] == s + init;
      PolynomialAppend(s, init);
    }
  }

  /**
   * Equal-length suffixes with the same polynomial make any two names that
   * share a prefix collide: "Aa" and "BB" are the classic pair.
   */
  lemma CollisionsExtend(prefix: JString, t: JString, u: JString)
    requires |t| == |u| && Polynomial(t) == Polynomial(u)
    ensures HashCode(prefix + t) == HashCode(prefix + u)
  {
    PolynomialAppend(prefix, t);
    PolynomialAppend(prefix, u);
    HashCodeIsPolynomial(prefix + t);
    HashCodeIsPolynomial(prefix + u);
  }

  lemma AaCollidesWithBB(prefix: JString)
    ensures HashCode(prefix + Ascii("Aa")) == HashCode(prefix + Ascii("BB"))
    ensures Ascii("Aa") != Ascii("BB")
  {
    var aa := Ascii("Aa");
    var bb := Ascii("BB");
    assert aa[..1] == [65] && bb[..1] == [66];
    assert Polynomial(aa) == 31 * 65 + 97 == 31 * 66 + 66 == Polynomial(bb);
    CollisionsExtend(prefix, aa, bb);
  }

  // ------------------------------------------------------------------ split

  /** The separator a BungeeCord player list uses. */
  function Separator(): JString { Ascii(", ") }

  predicate SeparatorAt(s: JString, i: nat) {
    i + 2 <= |s| && s[i] == 0x2C && s[i + 1] == 0x20
  }

  predicate ContainsSeparator(s: JString) {
    exists i: nat | i < |s| :: SeparatorAt(s, i)
  }

  /** The first occurrence of ", " at or after `from`, if any. */
  function FindSeparator(s: JString, from: nat): (r: Option<nat>)
    decreases |s| - from
    ensures r.Some? ==>
      from <= r.value && SeparatorAt(s, r.value) && forall j: nat | from <= j < r.value :: !SeparatorAt(s, j)
    ensures r.None? ==> forall j: nat | from <= j :: !SeparatorAt(s, j)
  {
    if from + 2 > |s| then None
    else if SeparatorAt(s, from) then Some(from)
    else FindSeparator(s, from + 1)
  }

  /**
   * The pieces between the non-overlapping occurrences of ", ", found left
   * to right; `s` itself when there is none.
   */
  function Pieces(s: JString): (r: seq<JString>)
    decreases |s|
    ensures |r| >= 1
  {
    match FindSeparator(s, 0)
    case None => [s]
    case Some(i) => [s[..i]] + Pieces(s[i + 2..])
  }

  function DropTrailingEmpty(pieces: seq<JString>): (r: seq<JString>)
    ensures |r| <= |pieces| && r == pieces[..|r|]
    ensures r == [] || r[|r| - 1] != []
    ensures forall i | |r| <= i < |pieces| :: pieces[i] == []
  {
    if pieces == [] || pieces[|pieces| - 1] != [] then pieces
    else DropTrailingEmpty(pieces[..|pieces| - 1])
  }

  /**
   * `s.split(", ")`: `s` alone when it has no separator (so "" gives [""]),
   * otherwise the pieces with the empty ones at the end removed.
   */
  function Split(s: JString): (r: seq<JString>)
    ensures forall k | 0 <= k < |r| :: !ContainsSeparator(r[k])
    ensures r == [s] || r == [] || r[|r| - 1] != []
  {
    if FindSeparator(s, 0).None? then [s]
    else
      PiecesJoin(s);
      DropTrailingEmpty(Pieces(s))
  }

  /** `String.join(", ", names)`, the way BungeeCord builds the list. */
  function Join(names: seq<JString>): (r: JString)
    ensures |names| >= 2 ==> SeparatorAt(r, |names[0]|)
  {
    if names == [] then []
    else if |names| == 1 then names[0]
    else names[0] + Separator() + Join(names[1..])
  }

  /** No piece contains the separator, and joining the pieces gives the string back. */
  lemma {:induction false} PiecesJoin(s: JString)
    ensures Join(Pieces(s)) == s
    ensures forall k | 0 <= k < |Pieces(s)| :: !ContainsSeparator(Pieces(s)[k])
    decreases |s|
  {
    match FindSeparator(s, 0)
    case None =>
      assert Pieces(s) == [s];
    case Some(i) =>
      var rest := s[i + 2..];
      PiecesJoin(rest);
      assert Pieces(s) == [s[..i]] + Pieces(rest);
      assert s == s[..i] + Separator() + rest;
      forall j: nat | j < i ensures !SeparatorAt(s[..i], j) {
        assert !SeparatorAt(s, j);
      }
  }

  /** A string without the separator has no first occurrence of it. */
  lemma {:induction false} NoSeparatorFound(s: JString, from: nat)
    requires !ContainsSeparator(s)
    ensures FindSeparator(s, from).None?
    decreases |s| - from
  {
    if from + 2 <= |s| {
      assert !SeparatorAt(s, from);
      NoSeparatorFound(s, from + 1);
    }
  }

  /** Two names joined: the first separator is the one between them. */
  lemma FirstSeparatorBetween(head: JString, tail: JString)
    requires !ContainsSeparator(head)
    ensures FindSeparator(head + Separator() + tail, 0) == Some(|head|)
  {
    var s := head + Separator() + tail;
    assert SeparatorAt(s, |head|);
    forall j: nat | j < |head| ensures !SeparatorAt(s, j) {
      if j + 1 < |head| {
        assert !SeparatorAt(head, j);
        assert s[j] == head[j] && s[j + 1] == head[j + 1];
      } else {
        assert s[j + 1] == 0x2C;
      }
    }
    var r := FindSeparator(s, 0);
    assert r.Some? && r.value <= |head|;
  }

  /** Names without the separator split back out of their join, trailing empty names aside. */
  lemma {:induction false} PiecesOfJoin(names: seq<JString>)
    requires names != []
    requires forall k | 0 <= k < |names| :: !ContainsSeparator(names[k])
    ensures Pieces(Join(names)) == names
    decreases |names|
  {
    if |names| == 1 {
      NoSeparatorFound(names[0], 0);
    } else {
      var s := Join(names);
      FirstSeparatorBetween(names[0], Join(names[1..]));
      assert s[..|names[0]|] == names[0];
      assert s[|names[0]| + 2..] == Join(names[1..]);
      PiecesOfJoin(names[1..]);
      assert [names[0]] + names[1..] == names;
    }
  }

  /**
   * A player list joined by BungeeCord is split back into the same names,
   * provided no name contains ", " and the last one is not empty (a single
   * empty name aside).
   */
  lemma SplitJoin(names: seq<JString>)
    requires names != [] && (names[|names| - 1] != [] || |names| == 1)
    requires forall k | 0 <= k < |names| :: !ContainsSeparator(names[k])
    ensures Split(Join(names)) == names
  {
    PiecesOfJoin(names);
    if |names| == 1 {
      NoSeparatorFound(names[0], 0);
    }
  }

  /** A string that ends with ", ", whose last piece is therefore empty. */
  predicate EndsWithSeparator(s: JString) {
    |s| >= 2 && SeparatorAt(s, |s| - 2)
  }

  /** A non-empty string that does not end with ", " has a non-empty last piece. */
  lemma {:induction false} LastPieceNonEmpty(s: JString)
    requires s != [] && !EndsWithSeparator(s)
    ensures Pieces(s)[|Pieces(s)| - 1] != []
    decreases |s|
  {
    match FindSeparator(s, 0)
    case None =>
    case Some(i) =>
      var rest := s[i + 2..];
      assert Pieces(s) == [s[..i]] + Pieces(rest);
      assert rest != [];
      assert !EndsWithSeparator(rest) by {
        if |rest| >= 2 {
          assert rest[|rest| - 2] == s[|s| - 2] && rest[|rest| - 1] == s[|s| - 1];
        }
      }
      LastPieceNonEmpty(rest);
  }

  /**
   * Joining the names `split(", ")` gives with ", " rebuilds the received
   * string, unless it ends with ", " (whose trailing empty names split drops).
   */
  lemma SplitJoinBack(s: JString)
    requires !EndsWithSeparator(s)
    ensures Join(Split(s)) == s
  {
    if FindSeparator(s, 0).Some? {
      PiecesJoin(s);
      LastPieceNonEmpty(s);
    }
  }

  /** An empty player list does not come back empty: "" splits into one empty name. */
  lemma EmptyListSplit()
    ensures Join([]) == []
    ensures Split([]) == [[]]
  {
  }
}
