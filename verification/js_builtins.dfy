/** The few JavaScript built-ins the components lean on: values that may be
    `undefined`, and `String.prototype.split` with a non-empty separator
    together with its inverse, `Array.prototype.join`. */
module JsBuiltins {

  /** A value that may be `undefined` (an optional prop, `number | null` state). */
  datatype Option<+T> = None | Some(value: T)

  /** `sep` occurs in `s` starting at index `i`. */
  predicate OccursAt(s: string, sep: string, i: int)
  {
    0 <= i && i + |sep| <= |s| && s[i..i + |sep|] == sep
  }

  /** `sep` occurs nowhere in `s`. */
  predicate Free(s: string, sep: string)
  {
    forall i :: 0 <= i <= |s| ==> !OccursAt(s, sep, i)
  }

  /** Character `t` of an occurrence is character `t` of the separator. */
  lemma OccursAtChar(s: string, sep: string, i: int, t: nat)
    requires t < |sep|
    ensures OccursAt(s, sep, i) ==> s[i + t] == sep[t]
  {
    if OccursAt(s, sep, i) {
      assert s[i..i + |sep|][t] == s[i + t];
    }
  }

  /** An occurrence in `s[1..]` is an occurrence in `s`, one index later, and back. */
  lemma OccursAtTail(s: string, sep: string, j: int)
    requires |s| > 0 && j >= 0
    ensures OccursAt(s[1..], sep, j) <==> OccursAt(s, sep, j + 1)
  {
    if 0 <= j && j + |sep| <= |s| - 1 {
      assert s[1..][j..j + |sep|] == s[j + 1..j + 1 + |sep|];
    }
  }

  /** An occurrence inside a prefix of `s` is an occurrence in `s`. */
  lemma OccursAtPrefix(s: string, n: nat, sep: string, j: int)
    requires n <= |s|
    ensures OccursAt(s[..n], sep, j) <==> OccursAt(s, sep, j) && j + |sep| <= n
  {
    if 0 <= j && j + |sep| <= n {
      assert s[..n][j..j + |sep|] == s[j..j + |sep|];
    }
  }

  /** `indexOf`: the first index at which `sep` occurs in `s`, if any. */
  function IndexOf(s: string, sep: string): (r: Option<nat>)
    requires sep != []
    ensures r.Some? ==> OccursAt(s, sep, r.value)
    ensures forall j :: OccursAt(s, sep, j) ==> r.Some? && r.value <= j
    decreases |s|
  {
    if |s| < |sep| then None
    else if s[..|sep|] == sep then Some(0)
    else
      var rest := IndexOf(s[1..], sep);
      assert forall j :: OccursAt(s, sep, j) ==> j >= 1 && OccursAt(s[1..], sep, j - 1) by {
        forall j | OccursAt(s, sep, j) ensures j >= 1 && OccursAt(s[1..], sep, j - 1) {
          if j > 0 {
            OccursAtTail(s, sep, j - 1);
          }
        }
      }
      match rest
      case None => None
      case Some(k) => OccursAtTail(s, sep, k); Some(k + 1)
  }

  /** `s.split(sep)`: the pieces of `s` between successive leftmost
      non-overlapping occurrences of `sep`. There is always at least one piece
      (`"".split(sep)` is `[""]`), and no piece contains `sep`. */
  function Split(s: string, sep: string): (parts: seq<string>)
    requires sep != []
    ensures |parts| >= 1
    ensures parts[0] <= s
    ensures forall k :: 0 <= k < |parts| ==> Free(parts[k], sep)
    ensures |parts| == 1 <==> Free(s, sep)
    decreases |s|
  {
    match IndexOf(s, sep)
    case None => [s]
    case Some(i) =>
      assert Free(s[..i], sep) by {
        forall j ensures !OccursAt(s[..i], sep, j) {
          OccursAtPrefix(s, i, sep, j);
        }
      }
      [s[..i]] + Split(s[i + |sep|..], sep)
  }

  /** `parts.join(sep)`. */
  function Join(parts: seq<string>, sep: string): string
  {
    if |parts| == 0 then ""
    else if |parts| == 1 then parts[0]
    else parts[0] + sep + Join(parts[1..], sep)
  }

  /** Joining the pieces of a split with the same separator gives back the string. */
  lemma {:induction false} JoinSplit(s: string, sep: string)
    requires sep != []
    ensures Join(Split(s, sep), sep) == s
    decreases |s|
  {
    var r := IndexOf(s, sep);
    if r.Some? {
      var i := r.value;
      var tail := s[i + |sep|..];
      JoinSplit(tail, sep);
      SplitAt(s, sep, i);
      JoinCons(s[..i], Split(tail, sep), sep);
      RejoinAt(s, sep, i);
    }
  }

  /** At the first occurrence, a split is the piece before it followed by the
      split of the rest. */
  lemma SplitAt(s: string, sep: string, i: nat)
    requires sep != [] && IndexOf(s, sep) == Some(i)
    ensures Split(s, sep) == [s[..i]] + Split(s[i + |sep|..], sep)
  {
  }

  /** Joining a first piece onto a non-empty list puts the separator between. */
  lemma JoinCons(p: string, rest: seq<string>, sep: string)
    requires |rest| >= 1
    ensures Join([p] + rest, sep) == p + sep + Join(rest, sep)
  {
    assert ([p] + rest)[1..] == rest;
  }

  /** Cutting `s` around an occurrence and putting the separator back gives `s`. */
  lemma RejoinAt(s: string, sep: string, i: nat)
    requires OccursAt(s, sep, i)
    ensures s[..i] + sep + s[i + |sep|..] == s
  {
    assert s == s[..i] + s[i..i + |sep|] + s[i + |sep|..];
  }

  /** Pieces that a split can give back: in every piece but the last, followed
      by the separator, the first occurrence of the separator is the one that
      follows it; the last piece does not contain the separator. */
  predicate Separable(parts: seq<string>, sep: string)
  {
    && |parts| >= 1
    && Free(parts[|parts| - 1], sep)
    && forall k, j :: 0 <= k < |parts| - 1 && 0 <= j < |parts[k]| ==> !OccursAt(parts[k] + sep, sep, j)
  }

  /** Splitting a join of separable pieces gives back the pieces. */
  lemma {:induction false} SplitJoin(parts: seq<string>, sep: string)
    requires sep != []
    requires Separable(parts, sep)
    ensures Split(Join(parts, sep), sep) == parts
    decreases |parts|
  {
    if |parts| > 1 {
      var p, tail := parts[0], parts[1..];
      var rest := Join(tail, sep);
      var s := Join(parts, sep);
      assert s == p + sep + rest;
      SeparableTail(parts, sep);
      SplitJoin(tail, sep);
      FirstOccurrenceAfterPiece(p, sep, rest);
      assert s[..|p|] == p;
      assert s[|p| + |sep|..] == rest;
      assert Split(s, sep) == [p] + Split(rest, sep);
    }
  }

  /** Dropping the first piece keeps the pieces separable. */
  lemma SeparableTail(parts: seq<string>, sep: string)
    requires Separable(parts, sep) && |parts| > 1
    ensures Separable(parts[1..], sep)
  {
    var tail := parts[1..];
    forall k, j | 0 <= k < |tail| - 1 && 0 <= j < |tail[k]|
      ensures !OccursAt(tail[k] + sep, sep, j)
    {
      assert tail[k] == parts[k + 1];
    }
    assert tail[|tail| - 1] == parts[|parts| - 1];
  }

  /** When the first occurrence of `sep` in `p + sep` is the appended one, it is
      also the first occurrence in `p + sep + rest`. */
  lemma FirstOccurrenceAfterPiece(p: string, sep: string, rest: string)
    requires sep != []
    requires forall j :: 0 <= j < |p| ==> !OccursAt(p + sep, sep, j)
    ensures IndexOf(p + sep + rest, sep) == Some(|p|)
  {
    var s := p + sep + rest;
    assert s[..|p| + |sep|] == p + sep;
    OccursAtPrefix(s, |p| + |sep|, sep, |p|);
    var r := IndexOf(s, sep);
    if r.value < |p| {
      OccursAtPrefix(s, |p| + |sep|, sep, r.value);
      assert false;
    }
  }
}
