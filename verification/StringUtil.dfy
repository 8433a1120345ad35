/** Splitting a string at a separator, and joining it again. */
module StringUtil {
  import opened Wrappers

  predicate OccursAt(s: string, p: nat, sep: string) {
    p + |sep| <= |s| && forall k | 0 <= k < |sep| :: sep[k] == s[p + k]
  }

  /** The first occurrence of sep in s at or after p. */
  function FindFrom(s: string, sep: string, p: nat): (r: Option<nat>)
    ensures r.Some? ==> p <= r.value && r.value + |sep| <= |s|
    decreases |s| - p
  {
    if p + |sep| > |s| then None
    else if OccursAt(s, p, sep) then Some(p)
    else FindFrom(s, sep, p + 1)
  }

  lemma {:induction false} FindsTheFirst(s: string, sep: string, p: nat)
    ensures match FindFrom(s, sep, p)
            case Some(r) => OccursAt(s, r, sep) && forall q | p <= q < r :: !OccursAt(s, q, sep)
            case None => forall q | p <= q :: !OccursAt(s, q, sep)
    decreases |s| - p
  {
    if p + |sep| <= |s| && !OccursAt(s, p, sep) {
      FindsTheFirst(s, sep, p + 1);
    }
  }

  predicate Free(s: string, sep: string) {
    FindFrom(s, sep, 0) == None
  }

  /** The pieces of s from position p on, cut at the first separator each time; empty pieces
      are dropped. */
  function Pieces(s: string, sep: string, p: nat): seq<string>
    requires sep != ""
    decreases |s| - p
  {
    if p >= |s| then []
    else
      match FindFrom(s, sep, p)
      case None => [s[p..]]
      case Some(q) => if q == p then Pieces(s, sep, p + |sep|) else [s[p..q]] + Pieces(s, sep, q + |sep|)
  }

  /** An empty separator leaves the string whole, even an empty one. */
  function SplitAt(s: string, sep: string): seq<string> {
    if sep == "" then [s] else Pieces(s, sep, 0)
  }

  lemma CutAt(s: string, sep: string, p: nat, q: nat, ts: seq<string>, rest: seq<string>)
    requires sep != "" && p <= q && p < |s| && FindFrom(s, sep, p) == Some(q)
    requires ts == Pieces(s, sep, p) && rest == Pieces(s, sep, q + |sep|)
    ensures ts == if q == p then rest else [s[p..q]] + rest
  {
  }

  lemma Onward(done: seq<string>, piece: string, rest: seq<string>)
    ensures done + ([piece] + rest) == (done + [piece]) + rest
  {
  }

  method Split(s: string, sep: string) returns (arry: seq<string>)
    ensures arry == SplitAt(s, sep)
  {
    arry := [];
    if sep == "" {
      return [s];
    }
    var idx := 0;
    ghost var rest := Pieces(s, sep, 0);
    ghost var all := rest;
    while idx < |s|
      invariant rest == Pieces(s, sep, idx)
      invariant arry + rest == all
    {
      var pos := FindFrom(s, sep, idx);
      if pos == None {
        arry := arry + [s[idx..]];
        return;
      }
      ghost var next := Pieces(s, sep, pos.value + |sep|);
      CutAt(s, sep, idx, pos.value, rest, next);
      if pos.value != idx {
        Onward(arry, s[idx..pos.value], next);
        arry := arry + [s[idx..pos.value]];
      }
      idx, rest := pos.value + |sep|, next;
    }
  }

  // ----- What the pieces are -----

  predicate Clean(ts: seq<string>, sep: string) {
    forall i | 0 <= i < |ts| :: ts[i] != "" && Free(ts[i], sep)
  }

  /** An occurrence in a slice is an occurrence in the string. */
  lemma SliceOccurs(s: string, p: nat, q: nat, i: nat, sep: string)
    requires p <= q <= |s| && i + |sep| <= q - p
    ensures OccursAt(s[p..q], i, sep) <==> OccursAt(s, p + i, sep)
  {
    var t := s[p..q];
    assert forall k | 0 <= k < |t| :: t[k] == s[p + k];
  }

  /** The piece between two positions is free of the separator if none starts in between. */
  lemma SliceIsFree(s: string, sep: string, p: nat, q: nat)
    requires p <= q <= |s| && sep != ""
    requires forall i | p <= i < q :: !OccursAt(s, i, sep)
    ensures Free(s[p..q], sep)
  {
    forall i: nat ensures !OccursAt(s[p..q], i, sep) {
      if i + |sep| <= q - p {
        SliceOccurs(s, p, q, i, sep);
      }
    }
    FindsTheFirst(s[p..q], sep, 0);
  }

  lemma OneMoreClean(head: string, rest: seq<string>, sep: string)
    requires head != "" && Free(head, sep) && Clean(rest, sep)
    ensures Clean([head] + rest, sep)
  {
  }

  lemma FirstPieceIsFree(s: string, sep: string, p: nat)
    requires sep != "" && p < |s|
    ensures match FindFrom(s, sep, p) case None => Free(s[p..], sep) case Some(q) => Free(s[p..q], sep)
  {
    FindsTheFirst(s, sep, p);
    match FindFrom(s, sep, p) {
      case None =>
        SliceIsFree(s, sep, p, |s|);
        assert s[p..] == s[p..|s|];
      case Some(q) =>
        SliceIsFree(s, sep, p, q);
    }
  }

  lemma {:induction false} PiecesAreClean(s: string, sep: string, p: nat, ts: seq<string>)
    requires sep != "" && ts == Pieces(s, sep, p)
    ensures Clean(ts, sep)
    decreases |s| - p
  {
    if p < |s| {
      FirstPieceIsFree(s, sep, p);
      match FindFrom(s, sep, p) {
        case None =>
        case Some(q) =>
          var rest := Pieces(s, sep, q + |sep|);
          PiecesAreClean(s, sep, q + |sep|, rest);
          if q != p {
            OneMoreClean(s[p..q], rest, sep);
          }
      }
    }
  }

  /** Whatever the string, every piece is nonempty and free of the separator. */
  lemma SplitIsClean(s: string, sep: string)
    requires sep != ""
    ensures Clean(SplitAt(s, sep), sep)
  {
    PiecesAreClean(s, sep, 0, Pieces(s, sep, 0));
  }

  function Total(ts: seq<string>): nat {
    if ts == [] then 0 else |ts[0]| + Total(ts[1..])
  }

  lemma TotalOfCons(head: string, rest: seq<string>)
    ensures Total([head] + rest) == |head| + Total(rest)
  {
    assert ([head] + rest)[1..] == rest;
  }

  /** The pieces take up no more than the string. */
  lemma {:induction false} PiecesFit(s: string, sep: string, p: nat, ts: seq<string>)
    requires sep != "" && ts == Pieces(s, sep, p)
    ensures Total(ts) <= if p < |s| then |s| - p else 0
    decreases |s| - p
  {
    if p < |s| {
      match FindFrom(s, sep, p) {
        case None => TotalOfCons(s[p..], []);
        case Some(q) =>
          var rest := Pieces(s, sep, q + |sep|);
          PiecesFit(s, sep, q + |sep|, rest);
          CutAt(s, sep, p, q, ts, rest);
          TotalOfCons(s[p..q], rest);
      }
    }
  }

  // ----- Split undoes join -----

  function Join(ts: seq<string>, sep: string): string {
    if ts == [] then "" else if |ts| == 1 then ts[0] else ts[0] + sep + Join(ts[1..], sep)
  }

  /** The first m characters are also the last m. */
  predicate BorderAt(sep: string, m: nat) {
    0 < m < |sep| && forall k | 0 <= k < m :: sep[k] == sep[|sep| - m + k]
  }

  /** No proper nonempty prefix is also a suffix. */
  ghost predicate Borderless(sep: string) {
    forall m :: !BorderAt(sep, m)
  }

  /** Two overlapping occurrences give the separator a border. */
  lemma OverlapIsABorder(s: string, sep: string, q: nat, n: nat)
    requires OccursAt(s, q, sep) && OccursAt(s, n, sep) && q < n < q + |sep|
    ensures BorderAt(sep, q + |sep| - n)
  {
    var m := q + |sep| - n;
    forall k | 0 <= k < m ensures sep[k] == sep[|sep| - m + k] {
      assert sep[|sep| - m + k] == s[q + (|sep| - m + k)];
    }
  }

  /** Before a separator that follows a token without one, no other separator starts. */
  lemma FirstSeparator(s: string, sep: string, p: nat, n: nat)
    requires sep != "" && Borderless(sep) && p <= n && OccursAt(s, n, sep) && Free(s[p..n], sep)
    ensures FindFrom(s, sep, p) == Some(n)
  {
    FindsTheFirst(s, sep, p);
    var q := FindFrom(s, sep, p).value;
    if q < n {
      if q + |sep| <= n {
        SliceOccurs(s, p, n, q - p, sep);
        FindsTheFirst(s[p..n], sep, 0);
      } else {
        OverlapIsABorder(s, sep, q, n);
      }
    }
  }

  /** Where the parts of token + separator + rest lie in a string that ends in them. */
  lemma PartsAt(s: string, p: nat, t: string, sep: string, rest: string)
    requires p <= |s| && s[p..] == t + sep + rest
    ensures |s| == p + |t| + |sep| + |rest| && s[p..p + |t|] == t && OccursAt(s, p + |t|, sep)
    ensures s[p + |t| + |sep|..] == rest
  {
    var u := s[p..];
    assert forall k | 0 <= k < |u| :: u[k] == s[p + k];
    assert forall k | 0 <= k < |sep| :: sep[k] == u[|t| + k];
  }

  lemma LastPiece(s: string, p: nat, t: string, sep: string)
    requires p <= |s| && s[p..] == t && sep != "" && Free(t, sep) && t != ""
    ensures Pieces(s, sep, p) == [t]
  {
    FindsTheFirst(s, sep, p);
    FindsTheFirst(t, sep, 0);
    match FindFrom(s, sep, p) {
      case None =>
      case Some(q) =>
        assert s[p..|s|] == t;
        SliceOccurs(s, p, |s|, q - p, sep);
    }
  }

  /** Tokens without the separator, some of which may be empty. */
  predicate AllFree(ts: seq<string>, sep: string) {
    forall i | 0 <= i < |ts| :: Free(ts[i], sep)
  }

  function NonEmpty(ts: seq<string>): seq<string> {
    if ts == [] then []
    else if ts[0] == "" then NonEmpty(ts[1..])
    else [ts[0]] + NonEmpty(ts[1..])
  }

  lemma {:induction false} CleanIsNonEmpty(ts: seq<string>, sep: string)
    requires Clean(ts, sep)
    ensures AllFree(ts, sep) && NonEmpty(ts) == ts
  {
    if ts == [] {
    } else {
      CleanIsNonEmpty(ts[1..], sep);
      assert [ts[0]] + ts[1..] == ts;
    }
  }

  lemma FreeRest(ts: seq<string>, sep: string)
    requires ts != [] && AllFree(ts, sep)
    ensures Free(ts[0], sep) && AllFree(ts[1..], sep)
  {
  }

  lemma JoinFirst(ts: seq<string>, sep: string)
    requires |ts| > 1
    ensures Join(ts, sep) == ts[0] + sep + Join(ts[1..], sep) && [ts[0]] + ts[1..] == ts
  {
  }

  /** The token at p ends at the first separator, and the rest follows it. */
  lemma TokenEnds(s: string, p: nat, t: string, sep: string, rest: string)
    requires sep != "" && Borderless(sep) && Free(t, sep) && p <= |s| && s[p..] == t + sep + rest
    ensures FindFrom(s, sep, p) == Some(p + |t|) && s[p..p + |t|] == t
    ensures p + |t| + |sep| <= |s| && s[p + |t| + |sep|..] == rest
  {
    PartsAt(s, p, t, sep, rest);
    FirstSeparator(s, sep, p, p + |t|);
  }

  /** The first piece of token + separator + rest is the token, unless it is empty. */
  lemma FirstToken(s: string, p: nat, t: string, sep: string, rest: string, pieces: seq<string>, more: seq<string>)
    requires sep != "" && Borderless(sep) && Free(t, sep)
    requires p <= |s| && s[p..] == t + sep + rest
    requires pieces == Pieces(s, sep, p) && more == Pieces(s, sep, p + |t| + |sep|)
    ensures p + |t| + |sep| <= |s| && s[p + |t| + |sep|..] == rest
    ensures pieces == if t == "" then more else [t] + more
  {
    TokenEnds(s, p, t, sep, rest);
    CutAt(s, sep, p, p + |t|, pieces, more);
  }

  /** The first of several joined tokens is the first piece, and the others remain. */
  lemma FirstOfJoin(s: string, p: nat, ts: seq<string>, sep: string, pieces: seq<string>, more: seq<string>)
    requires |ts| > 1 && sep != "" && Borderless(sep) && AllFree(ts, sep) && p <= |s| && s[p..] == Join(ts, sep)
    requires pieces == Pieces(s, sep, p) && more == Pieces(s, sep, p + |ts[0]| + |sep|)
    ensures AllFree(ts[1..], sep) && p + |ts[0]| + |sep| <= |s| && s[p + |ts[0]| + |sep|..] == Join(ts[1..], sep)
    ensures pieces == if ts[0] == "" then more else [ts[0]] + more
  {
    FreeRest(ts, sep);
    JoinFirst(ts, sep);
    FirstToken(s, p, ts[0], sep, Join(ts[1..], sep), pieces, more);
  }

  lemma OnlyPiece(s: string, p: nat, ts: seq<string>, sep: string)
    requires |ts| == 1 && sep != "" && AllFree(ts, sep) && p <= |s| && s[p..] == Join(ts, sep)
    ensures Pieces(s, sep, p) == NonEmpty(ts)
  {
    FreeRest(ts, sep);
    assert ts[1..] == [] && ts == [ts[0]];
    if ts[0] == "" {
      assert |s[p..]| == 0;
    } else {
      LastPiece(s, p, ts[0], sep);
    }
  }

  /** In a string that ends in joined tokens, the pieces from there on are the tokens that are
      not empty. */
  lemma {:induction false} PiecesOfJoin(s: string, p: nat, ts: seq<string>, sep: string, pieces: seq<string>)
    requires sep != "" && Borderless(sep) && AllFree(ts, sep)
    requires p <= |s| && s[p..] == Join(ts, sep) && pieces == Pieces(s, sep, p)
    ensures pieces == NonEmpty(ts)
    decreases |ts|
  {
    if ts == [] {
      assert |s[p..]| == 0;
    } else if |ts| == 1 {
      OnlyPiece(s, p, ts, sep);
    } else {
      var n := p + |ts[0]| + |sep|;
      var more := Pieces(s, sep, n);
      FirstOfJoin(s, p, ts, sep, pieces, more);
      PiecesOfJoin(s, n, ts[1..], sep, more);
    }
  }

  /** Every string is a join of tokens without the separator. */
  lemma {:induction false} EveryStringIsAJoin(s: string, sep: string, p: nat) returns (ts: seq<string>)
    requires sep != "" && p <= |s|
    ensures ts != [] && AllFree(ts, sep) && Join(ts, sep) == s[p..]
    decreases |s| - p
  {
    if p == |s| {
      ts := [""];
      ShorterIsFree("", sep);
    } else {
      FirstPieceIsFree(s, sep, p);
      match FindFrom(s, sep, p) {
        case None => ts := [s[p..]];
        case Some(q) =>
          var rest := EveryStringIsAJoin(s, sep, q + |sep|);
          ts := [s[p..q]] + rest;
          FoundOccurs(s, sep, p, q);
          SliceAt(s, q, sep);
          Glued(s, p, q, q + |sep|, sep, s[q + |sep|..]);
          JoinIs(s[p..q], rest, sep, s[q + |sep|..], s[p..]);
      }
    }
  }

  lemma SliceAt(s: string, q: nat, sep: string)
    requires OccursAt(s, q, sep)
    ensures s[q..q + |sep|] == sep
  {
  }

  lemma ThreeParts(s: string, p: nat, q: nat, r: nat)
    requires p <= q <= r <= |s|
    ensures s[p..] == s[p..q] + s[q..r] + s[r..]
  {
  }

  lemma FoundOccurs(s: string, sep: string, p: nat, q: nat)
    requires FindFrom(s, sep, p) == Some(q)
    ensures OccursAt(s, q, sep)
  {
    FindsTheFirst(s, sep, p);
  }

  lemma JoinCons(head: string, rest: seq<string>, sep: string)
    requires rest != []
    ensures Join([head] + rest, sep) == head + sep + Join(rest, sep)
  {
    assert ([head] + rest)[1..] == rest;
  }

  lemma Glued(s: string, p: nat, q: nat, r: nat, sep: string, tail: string)
    requires p <= q <= r <= |s| && s[q..r] == sep && s[r..] == tail
    ensures s[p..q] + sep + tail == s[p..]
  {
    ThreeParts(s, p, q, r);
  }

  lemma JoinIs(head: string, rest: seq<string>, sep: string, tail: string, whole: string)
    requires rest != [] && Join(rest, sep) == tail && head + sep + tail == whole
    ensures Join([head] + rest, sep) == whole
  {
    JoinCons(head, rest, sep);
  }

  /** t is the separator without its border, so t + separator begins with the separator. */
  lemma BorderAppearsEarly(sep: string, m: nat, t: string, rest: string)
    requires BorderAt(sep, m) && t == sep[..|sep| - m]
    ensures FindFrom(t + sep + rest, sep, 0) == Some(0)
  {
    var s := t + sep + rest;
    forall k | 0 <= k < |sep| ensures sep[k] == s[k] {
      if k >= |t| {
        assert s[k] == sep[k - |t|];
      }
    }
    assert OccursAt(s, 0, sep);
  }

  lemma TotalTwice(t: string)
    ensures Total([t]) == |t| && Total([t, t]) == 2 * |t|
  {
    assert [t][1..] == [];
    assert [t, t][1..] == [t];
  }

  /** The pieces of a string with a separator in it add up to less than its length. */
  lemma CutIsShorter(s: string, sep: string, p: nat, q: nat)
    requires sep != "" && p < |s| && FindFrom(s, sep, p) == Some(q)
    ensures p <= q < q + |sep| <= |s|
    ensures q - p + Total(Pieces(s, sep, q + |sep|)) < |s| - p
  {
    PiecesFit(s, sep, q + |sep|, Pieces(s, sep, q + |sep|));
  }

  /** A string as long as two copies of a token is not cut into these two pieces. */
  lemma NotTwoPieces(s: string, sep: string, p: nat, t: string)
    requires sep != "" && p <= |s| && |s| - p == 2 * |t| && t != ""
    ensures Pieces(s, sep, p) != [t, t]
  {
    match FindFrom(s, sep, p) {
      case None => assert |Pieces(s, sep, p)| == 1;
      case Some(q) => NotTwoAfterCut(s, sep, p, q, t);
    }
  }

  lemma NotTwoAfterCut(s: string, sep: string, p: nat, q: nat, t: string)
    requires sep != "" && p < |s| && |s| - p == 2 * |t| && FindFrom(s, sep, p) == Some(q)
    ensures Pieces(s, sep, p) != [t, t]
  {
    var rest := Pieces(s, sep, q + |sep|);
    CutIsShorter(s, sep, p, q);
    CutAt(s, sep, p, q, Pieces(s, sep, p), rest);
    if q == p {
      TotalTwice(t);
    } else {
      HeadAndRest(s[p..q], rest, t);
    }
  }

  lemma HeadAndRest(head: string, rest: seq<string>, t: string)
    requires |head| + Total(rest) < 2 * |t|
    ensures [head] + rest != [t, t]
  {
    TotalTwice(t);
    var all := [head] + rest;
    assert all[0] == head && all[1..] == rest;
    assert [t, t][1..] == [t];
  }

  lemma LeadingSeparator(s: string, sep: string)
    requires sep != "" && s != "" && FindFrom(s, sep, 0) == Some(0)
    ensures SplitAt(s, sep) == Pieces(s, sep, |sep|)
  {
  }

  lemma JoinTwice(t: string, sep: string)
    ensures Join([t, t], sep) == t + sep + t
  {
    assert [t, t][1..] == [t];
  }

  lemma ShorterIsFree(t: string, sep: string)
    requires |t| < |sep|
    ensures Free(t, sep)
  {
  }

  /** A separator with a proper border does not split what it joined: take the separator
      without that border, twice. */
  lemma BorderBreaksSplit(sep: string, m: nat, t: string)
    requires BorderAt(sep, m) && t == sep[..|sep| - m]
    ensures Clean([t, t], sep) && SplitAt(Join([t, t], sep), sep) != [t, t]
  {
    ShorterIsFree(t, sep);
    var s := t + sep + t;
    JoinTwice(t, sep);
    BorderAppearsEarly(sep, m, t, t);
    LeadingSeparator(s, sep);
    NotTwoPieces(s, sep, |sep|, t);
  }

  /** For a separator without a proper border: cut anywhere, a joined list comes back without
      its empty tokens. As every string is such a join, this says what split does. */
  lemma SplitDropsEmpty(ts: seq<string>, sep: string)
    requires sep != "" && Borderless(sep) && AllFree(ts, sep)
    ensures SplitAt(Join(ts, sep), sep) == NonEmpty(ts)
  {
    PiecesOfJoin(Join(ts, sep), 0, ts, sep, SplitAt(Join(ts, sep), sep));
  }

  lemma EmptySeparatorSplitsNothing(s: string)
    ensures SplitAt(s, "") == [s]
  {
  }

  /** Split undoes join for all lists of nonempty tokens without the separator, exactly when
      the separator has no proper border. */
  lemma SplitUndoesJoin(sep: string)
    requires sep != ""
    ensures Borderless(sep) <==> forall ts | Clean(ts, sep) :: SplitAt(Join(ts, sep), sep) == ts
  {
    if Borderless(sep) {
      forall ts | Clean(ts, sep) ensures SplitAt(Join(ts, sep), sep) == ts {
        CleanIsNonEmpty(ts, sep);
        SplitDropsEmpty(ts, sep);
      }
    } else {
      var m :| BorderAt(sep, m);
      BorderBreaksSplit(sep, m, sep[..|sep| - m]);
    }
  }
}
