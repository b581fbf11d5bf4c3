/**
 * The fragment of Go's `regexp` package that the validators use: bracket
 * expressions over ASCII bytes (`[a-zA-Z0-9_]`, `\d`), each repeated
 * between a minimum and a maximum number of times (`{3,15}`; a bare class
 * is `{1,1}`), either anchored at both ends (`^...$`) or searched for
 * anywhere in the input (`MatchString` of an unanchored single class).
 *
 * Go matches runes decoded from UTF-8, not bytes. Every class here lists
 * ASCII bytes only, and no byte of a multi-byte UTF-8 sequence (nor the
 * replacement rune an invalid byte decodes to) is ASCII, so a byte belongs
 * to a class exactly when the rune containing it does, and a matched run
 * of k ASCII runes is a run of k bytes. Matching on bytes therefore gives
 * the same answer as Go's matcher for these patterns.
 */
module Regexp {
  import opened GoStrings

  /** One entry of a bracket expression: a range `a-z` or a single byte `_`. */
  datatype ClassItem = Range(lo: Byte, hi: Byte) | Single(b: Byte) {
    predicate Matches(c: Byte) {
      match this
      case Range(lo, hi) => lo <= c <= hi
      case Single(b) => c == b
    }
  }

  /** A bracket expression `[...]`: the union of its items. */
  type CharClass = seq<ClassItem>

  predicate InClass(c: Byte, cls: CharClass) {
    exists item :: item in cls && item.Matches(c)
  }

  /** Every byte of `s` belongs to `cls`. */
  predicate AllIn(s: GoString, cls: CharClass) {
    forall i :: 0 <= i < |s| ==> InClass(s[i], cls)
  }

  /** A class repeated between `min` and `max` times: `[...]{min,max}`. */
  datatype Piece = Piece(cls: CharClass, min: nat, max: nat)

  /**
   * `^p1 p2 ... pn$` matches the whole of `s`. The first piece is tried
   * with every repetition count in turn (Go's matcher finds a match
   * whenever one exists, so for a yes/no answer the order does not matter).
   */
  predicate MatchAnchored(ps: seq<Piece>, s: GoString)
    decreases |ps|, |s| + 2
  {
    if ps == [] then s == [] else TryCounts(ps, s, 0)
  }

  /**
   * Some count `j >= k` lets the first piece consume `s[..j]` and the rest
   * of the pattern match `s[j..]`; `s[..k-1]` is already known to lie in
   * the first piece's class.
   */
  predicate TryCounts(ps: seq<Piece>, s: GoString, k: nat)
    requires ps != [] && k <= |s| + 1
    decreases |ps|, |s| + 1 - k
  {
    if k > ps[0].max || k > |s| then
      false
    else if k > 0 && !InClass(s[k - 1], ps[0].cls) then
      false
    else
      (k >= ps[0].min && MatchAnchored(ps[1..], s[k..])) || TryCounts(ps, s, k + 1)
  }

  /** Unanchored `MatchString` of a single class: some byte of `s` is in `cls`. */
  predicate Search(s: GoString, cls: CharClass) {
    s != [] && (InClass(s[0], cls) || Search(s[1..], cls))
  }

  /** The first piece consumes exactly `s[..j]` and the rest matches `s[j..]`. */
  predicate SplitAt(ps: seq<Piece>, s: GoString, j: nat)
    requires ps != []
  {
    ps[0].min <= j <= ps[0].max && j <= |s| && AllIn(s[..j], ps[0].cls)
    && MatchAnchored(ps[1..], s[j..])
  }

  lemma {:induction false} TryCountsSplits(ps: seq<Piece>, s: GoString, k: nat)
    requires ps != [] && k <= |s| + 1
    requires k > 0 ==> AllIn(s[..k - 1], ps[0].cls)
    ensures TryCounts(ps, s, k) <==> exists j :: k <= j && SplitAt(ps, s, j)
    decreases |s| + 1 - k
  {
    var p := ps[0];
    if k > p.max || k > |s| {
      // no count from k on is both allowed and available
    } else if k > 0 && !InClass(s[k - 1], p.cls) {
      forall j | k <= j <= |s| ensures !AllIn(s[..j], p.cls) {
        assert s[..j][k - 1] == s[k - 1];
      }
    } else {
      assert AllIn(s[..k], p.cls) by {
        forall i | 0 <= i < k ensures InClass(s[..k][i], p.cls) {
          if i < k - 1 { assert s[..k - 1][i] == s[..k][i]; }
        }
      }
      TryCountsSplits(ps, s, k + 1);
      if TryCounts(ps, s, k) {
        if k >= p.min && MatchAnchored(ps[1..], s[k..]) {
          assert SplitAt(ps, s, k);
        }
      } else {
        assert !SplitAt(ps, s, k);
      }
    }
  }

  /** Matching one piece, anchored: the length is within bounds and every byte is in the class. */
  lemma MatchOnePiece(p: Piece, s: GoString)
    ensures MatchAnchored([p], s) <==> p.min <= |s| <= p.max && AllIn(s, p.cls)
  {
    var ps := [p];
    TryCountsSplits(ps, s, 0);
    assert ps[1..] == [];
    if p.min <= |s| <= p.max && AllIn(s, p.cls) {
      assert s[..|s|] == s;
      assert SplitAt(ps, s, |s|);
    }
    if MatchAnchored(ps, s) {
      var j :| 0 <= j && SplitAt(ps, s, j);
      assert s[j..] == [];
      assert s[..j] == s;
    }
  }

  /**
   * Matching a single-byte piece followed by another piece: the first byte
   * is in the first class and the rest of `s` matches the second piece.
   */
  lemma MatchHeadThenPiece(p: Piece, q: Piece, s: GoString)
    requires p.min == 1 && p.max == 1
    ensures MatchAnchored([p, q], s) <==>
              |s| >= 1 && InClass(s[0], p.cls) && MatchAnchored([q], s[1..])
  {
    var ps := [p, q];
    TryCountsSplits(ps, s, 0);
    assert ps[1..] == [q];
    if |s| >= 1 && InClass(s[0], p.cls) && MatchAnchored([q], s[1..]) {
      assert SplitAt(ps, s, 1);
    }
    if MatchAnchored(ps, s) {
      var j :| 0 <= j && SplitAt(ps, s, j);
      assert j == 1;
      assert s[..1][0] == s[0];
    }
  }

  /** An unanchored single-class search finds a byte of the class somewhere in `s`. */
  lemma {:induction false} SearchFinds(s: GoString, cls: CharClass)
    ensures Search(s, cls) <==> exists i :: 0 <= i < |s| && InClass(s[i], cls)
  {
    if s != [] {
      SearchFinds(s[1..], cls);
      if Search(s[1..], cls) {
        var i :| 0 <= i < |s[1..]| && InClass(s[1..][i], cls);
        assert InClass(s[i + 1], cls);
      }
      forall i | 0 < i < |s| && InClass(s[i], cls) ensures Search(s[1..], cls) {
        assert s[1..][i - 1] == s[i];
      }
    }
  }
}
