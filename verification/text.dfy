/** String helpers with the semantics of the JavaScript built-ins the
    modelled code calls: `String.prototype.split` with a one-character
    separator, `Array.prototype.join`, `indexOf(p) === 0`, and the decimal
    rendering of integers inside template literals. */
module Text {

  /** `s.indexOf(p) === 0`: `p` occurs at the very start of `s`
      (the empty string occurs at the start of every string). */
  predicate StartsWith(s: string, p: string) {
    |p| <= |s| && s[..|p|] == p
  }

  /** `pieces.join(sep)`. */
  function Join(pieces: seq<string>, sep: char): string
    decreases |pieces|
  {
    if |pieces| == 0 then ""
    else if |pieces| == 1 then pieces[0]
    else pieces[0] + [sep] + Join(pieces[1..], sep)
  }

  /** `s.split(sep)` for a one-character separator: always at least one
      piece, no piece holds the separator, and joining the pieces back with
      the separator gives `s` again. */
  function Split(s: string, sep: char): (r: seq<string>)
    ensures |r| >= 1
    ensures forall i :: 0 <= i < |r| ==> sep !in r[i]
    ensures Join(r, sep) == s
    decreases |s|
  {
    if |s| == 0 then [""]
    else
      var rest := Split(s[1..], sep);
      if s[0] == sep then
        assert Join([""] + rest, sep) == [sep] + Join(rest, sep) by {
          assert ([""] + rest)[1..] == rest;
        }
        assert s == [s[0]] + s[1..];
        [""] + rest
      else
        var head := [s[0]] + rest[0];
        assert sep !in head;
        if |rest| == 1 then
          assert s == [s[0]] + s[1..];
          [head]
        else
          assert ([head] + rest[1..])[1..] == rest[1..];
          assert Join(rest, sep) == rest[0] + [sep] + Join(rest[1..], sep);
          assert s == [s[0]] + s[1..];
          [head] + rest[1..]
  }

  /** The characters of `s` other than `c`, in order. */
  function Without(s: string, c: char): string {
    if |s| == 0 then ""
    else (if s[0] == c then "" else [s[0]]) + Without(s[1..], c)
  }

  /** All pieces glued together with no separator. */
  function Concat(pieces: seq<string>): string {
    if |pieces| == 0 then "" else pieces[0] + Concat(pieces[1..])
  }

  /** `pieces.filter(s => s !== '')`: every kept piece is a non-empty
      piece of the input. */
  function NonEmpty(pieces: seq<string>): (r: seq<string>)
    ensures forall i :: 0 <= i < |r| ==> |r[i]| > 0 && r[i] in pieces
    ensures |r| <= |pieces|
  {
    if |pieces| == 0 then []
    else if pieces[0] == "" then NonEmpty(pieces[1..])
    else [pieces[0]] + NonEmpty(pieces[1..])
  }

  /** Only the empty strings are dropped, so gluing the kept pieces gives
      the same text as gluing them all. */
  lemma {:induction false} NonEmptyConcat(pieces: seq<string>)
    ensures Concat(NonEmpty(pieces)) == Concat(pieces)
    decreases |pieces|
  {
    if |pieces| > 0 {
      NonEmptyConcat(pieces[1..]);
      if pieces[0] != "" {
        assert ([pieces[0]] + NonEmpty(pieces[1..]))[1..] == NonEmpty(pieces[1..]);
      }
    }
  }

  /** Dropping the empty strings changes nothing when there are none. */
  lemma {:induction false} NonEmptyKeepsAll(pieces: seq<string>)
    requires forall i :: 0 <= i < |pieces| ==> |pieces[i]| > 0
    ensures NonEmpty(pieces) == pieces
  {
    if |pieces| > 0 {
      NonEmptyKeepsAll(pieces[1..]);
      assert [pieces[0]] + pieces[1..] == pieces;
    }
  }

  /** The filter works piece by piece: filtering a concatenation filters
      each part. */
  lemma {:induction false} NonEmptyAppend(a: seq<string>, b: seq<string>)
    ensures NonEmpty(a + b) == NonEmpty(a) + NonEmpty(b)
    decreases |a|
  {
    if |a| == 0 {
      assert a + b == b;
    } else {
      assert (a + b)[0] == a[0] && (a + b)[1..] == a[1..] + b;
      NonEmptyAppend(a[1..], b);
      if a[0] != "" {
        assert [a[0]] + (NonEmpty(a[1..]) + NonEmpty(b)) == ([a[0]] + NonEmpty(a[1..])) + NonEmpty(b);
      }
    }
  }

  /** A single piece is kept exactly when it is not empty. */
  lemma NonEmptySingle(p: string)
    ensures NonEmpty([p]) == (if p == "" then [] else [p])
  {
    assert [p][1..] == [];
  }

  /** Splitting on `sep` loses exactly the separators: the pieces glued
      together are the input with every `sep` removed. */
  lemma {:induction false} ConcatSplit(s: string, sep: char)
    ensures Concat(Split(s, sep)) == Without(s, sep)
    decreases |s|
  {
    if |s| > 0 {
      ConcatSplit(s[1..], sep);
      var rest := Split(s[1..], sep);
      if s[0] != sep {
        if |rest| > 1 {
          assert Concat(rest) == rest[0] + Concat(rest[1..]);
        }
      }
    }
  }

  /** `Split` inverts `Join` on separator-free pieces, so a split is
      determined by the text alone. */
  lemma {:induction false} SplitJoin(pieces: seq<string>, sep: char)
    requires |pieces| >= 1
    requires forall i :: 0 <= i < |pieces| ==> sep !in pieces[i]
    ensures Split(Join(pieces, sep), sep) == pieces
    decreases |pieces|, |pieces[0]|
  {
    var p := pieces[0];
    if |pieces| == 1 {
      if |p| > 0 {
        assert p[0] != sep by { assert p[0] in p; }
        SplitJoin([p[1..]], sep);
        assert Split(p, sep) == [[p[0]] + p[1..]];
      }
    } else {
      var tail := Join(pieces[1..], sep);
      if |p| == 0 {
        assert Join(pieces, sep) == [sep] + tail;
        SplitJoin(pieces[1..], sep);
        assert ([sep] + tail)[1..] == tail;
        assert pieces == [""] + pieces[1..];
      } else {
        assert p[0] != sep by { assert p[0] in p; }
        var shorter := [p[1..]] + pieces[1..];
        assert forall i :: 0 <= i < |shorter| ==> sep !in shorter[i] by {
          forall i | 0 <= i < |shorter| ensures sep !in shorter[i] {
            if i == 0 {
              assert forall c :: c in p[1..] ==> c in p;
            } else {
              assert shorter[i] == pieces[i];
            }
          }
        }
        SplitJoin(shorter, sep);
        assert shorter[1..] == pieces[1..];
        assert Join(shorter, sep) == p[1..] + [sep] + tail;
        assert Join(pieces, sep) == [p[0]] + Join(shorter, sep);
        assert ([p[0]] + Join(shorter, sep))[1..] == Join(shorter, sep);
        assert [p[0]] + p[1..] == p;
        assert [p] + pieces[1..] == pieces;
      }
    }
  }

  function DigitChar(d: nat): char
    requires d < 10
  {
    "0123456789"[d]
  }

  /** Decimal rendering of a natural number, as a template literal prints it. */
  function NatToString(n: nat): (r: string)
    ensures |r| > 0
  {
    if n < 10 then [DigitChar(n)] else NatToString(n / 10) + [DigitChar(n % 10)]
  }

  /** Decimal rendering of an integer, with a leading `-` when negative. */
  function IntToString(i: int): (r: string)
    ensures |r| > 0
  {
    if i < 0 then "-" + NatToString(-i) else NatToString(i)
  }
}
