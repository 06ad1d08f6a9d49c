/**
 * The ranking step of the search controller (src/controllers/search.controller.js): the
 * hand-written comparator passed to `results.sort` and the in-place sort it drives.
 */
module SearchRanking {

  /** The four searchable collections, in the order federated mode concatenates them. */
  datatype Kind = UserKind | TrackKind | ArtistKind | PlaylistKind

  /**
   * A stored record as the search sees it. Only the three fields the comparator reads are
   * kept; the empty string stands for a field the record does not have.
   */
  datatype Doc = Doc(id: string, username: string, title: string, name: string)

  /** A record annotated with the collection it came from (`{ ...doc, type }`). */
  datatype Tagged = Tagged(doc: Doc, kind: Kind)

  /** `a.username || a.title || a.name`: the first non-empty of the three fields. */
  function DisplayField(d: Doc): string {
    if d.username != "" then d.username else if d.title != "" then d.title else d.name
  }

  /** String.prototype.toLowerCase on the ASCII range; other characters are kept. */
  function AsciiLower(s: string): string {
    if s == [] then []
    else [if 'A' <= s[0] <= 'Z' then (s[0] as int + 32) as char else s[0]] + AsciiLower(s[1..])
  }

  /** The record's display field equals the query up to case. */
  predicate ExactMatch(t: Tagged, query: string) {
    AsciiLower(DisplayField(t.doc)) == AsciiLower(query)
  }

  /**
   * `x.localeCompare(y)`: negative, zero or positive. The collation is given by a sort key,
   * as a collator produces one; every total preorder on strings has a real-valued key.
   */
  function LocaleCompare(x: string, y: string, key: string -> real): int {
    if key(x) < key(y) then -1 else if key(x) == key(y) then 0 else 1
  }

  /** x collates no later than y. */
  predicate CollatesBefore(x: string, y: string, key: string -> real) {
    key(x) <= key(y)
  }

  /** The comparator of the search controller. */
  function Compare(a: Tagged, b: Tagged, query: string, key: string -> real): int {
    if ExactMatch(a, query) then -1
    else if ExactMatch(b, query) then 1
    else LocaleCompare(DisplayField(a.doc), DisplayField(b.doc), key)
  }

  /** Every record may stand before every later one: the comparator never asks for a later record to move ahead. */
  predicate Ranked(s: seq<Tagged>, query: string, key: string -> real) {
    forall i, j :: 0 <= i < j < |s| ==> Compare(s[i], s[j], query, key) <= 0
  }

  predicate AdjacentRanked(s: seq<Tagged>, query: string, key: string -> real) {
    RunRanked(s, 0, |s|, query, key)
  }

  /** Neighbours in `s[lo..hi]` are in order. */
  predicate RunRanked(s: seq<Tagged>, lo: nat, hi: nat, query: string, key: string -> real)
    requires lo <= hi <= |s|
  {
    forall k :: lo < k < hi ==> Compare(s[k - 1], s[k], query, key) <= 0
  }

  /** Two different positions never both hold an exact match. */
  predicate AtMostOneExact(s: seq<Tagged>, query: string) {
    forall i, j :: 0 <= i < |s| && 0 <= j < |s| && ExactMatch(s[i], query) && ExactMatch(s[j], query) ==> i == j
  }

  /** `perm` maps every position of `s` to a distinct position of `orig` holding the same record. */
  predicate Permutes(orig: seq<Tagged>, s: seq<Tagged>, perm: seq<nat>) {
    && |perm| == |s| == |orig|
    && (forall k :: 0 <= k < |s| ==> perm[k] < |orig| && s[k] == orig[perm[k]])
    && (forall p, q :: 0 <= p < q < |perm| ==> perm[p] != perm[q])
  }

  /** Records the comparator finds equal keep their original relative order. */
  predicate StableFrom(s: seq<Tagged>, perm: seq<nat>, query: string, key: string -> real)
    requires |perm| == |s|
  {
    forall p, q :: 0 <= p < q < |s| && Compare(s[p], s[q], query, key) == 0 ==> perm[p] < perm[q]
  }

  /**
   * The result ECMA-262 prescribes for Array.prototype.sort on `orig` with a consistent
   * comparator: a permutation in which a record the comparator puts strictly before another
   * (itself included) stands earlier, and records it finds equal keep their original
   * relative order.
   */
  predicate EcmaSorted(orig: seq<Tagged>, s: seq<Tagged>, perm: seq<nat>, query: string, key: string -> real) {
    && Permutes(orig, s, perm)
    && (forall i, j :: 0 <= i < |s| && 0 <= j < |s| && Compare(s[i], s[j], query, key) < 0 ==> i < j)
    && (forall i, j :: 0 <= i < |s| && 0 <= j < |s| && perm[i] < perm[j] && Compare(s[i], s[j], query, key) == 0 ==> i < j)
  }

  /** No record of `s` matches the query exactly. */
  predicate NoExact(s: seq<Tagged>, query: string) {
    forall i :: 0 <= i < |s| ==> !ExactMatch(s[i], query)
  }

  /** `Compare(a, b) <= 0` is transitive: the comparator's "no later than" is a preorder. */
  lemma CompareTransitive(a: Tagged, b: Tagged, c: Tagged, query: string, key: string -> real)
    requires Compare(a, b, query, key) <= 0 && Compare(b, c, query, key) <= 0
    ensures Compare(a, c, query, key) <= 0
  {
  }

  /** When the comparator asks to swap two records, the swapped pair is in order. */
  lemma CompareFlip(a: Tagged, b: Tagged, query: string, key: string -> real)
    requires Compare(a, b, query, key) > 0
    ensures Compare(b, a, query, key) < 0
  {
  }

  /** Outside the case of two exact matches, "strictly before" is asymmetric. */
  lemma CompareAsymmetric(a: Tagged, b: Tagged, query: string, key: string -> real)
    requires !(ExactMatch(a, query) && ExactMatch(b, query))
    requires Compare(a, b, query, key) < 0
    ensures Compare(b, a, query, key) > 0
  {
  }

  lemma {:induction false} AdjacentRankedPair(s: seq<Tagged>, query: string, key: string -> real, i: nat, j: nat)
    requires AdjacentRanked(s, query, key)
    requires i < j < |s|
    ensures Compare(s[i], s[j], query, key) <= 0
    decreases j - i
  {
    if i + 1 < j {
      AdjacentRankedPair(s, query, key, i, j - 1);
      CompareTransitive(s[i], s[j - 1], s[j], query, key);
    }
  }

  lemma AdjacentToRanked(s: seq<Tagged>, query: string, key: string -> real)
    requires AdjacentRanked(s, query, key)
    ensures Ranked(s, query, key)
  {
    forall i, j | 0 <= i < j < |s|
      ensures Compare(s[i], s[j], query, key) <= 0
    {
      AdjacentRankedPair(s, query, key, i, j);
    }
  }

  /**
   * In a ranked sequence every exact match precedes every other record, and the other
   * records follow in collation order.
   */
  lemma RankedShape(s: seq<Tagged>, query: string, key: string -> real)
    requires Ranked(s, query, key)
    ensures forall i, j :: 0 <= i < j < |s| && ExactMatch(s[j], query) ==> ExactMatch(s[i], query)
    ensures forall i, j :: 0 <= i < j < |s| && !ExactMatch(s[i], query) && !ExactMatch(s[j], query) ==>
              CollatesBefore(DisplayField(s[i].doc), DisplayField(s[j].doc), key)
  {
    forall i, j | 0 <= i < j < |s| && ExactMatch(s[j], query)
      ensures ExactMatch(s[i], query)
    {
      assert Compare(s[i], s[j], query, key) <= 0;
    }
    forall i, j | 0 <= i < j < |s| && !ExactMatch(s[i], query) && !ExactMatch(s[j], query)
      ensures CollatesBefore(DisplayField(s[i].doc), DisplayField(s[j].doc), key)
    {
      assert Compare(s[i], s[j], query, key) <= 0;
    }
  }

  /** With one exact match among the records, a ranked sequence starts with it and has no other. */
  lemma ExactMatchFirst(s: seq<Tagged>, query: string, key: string -> real, k: nat)
    requires Ranked(s, query, key) && AtMostOneExact(s, query)
    requires k < |s| && ExactMatch(s[k], query)
    ensures ExactMatch(s[0], query)
    ensures forall i :: 0 < i < |s| ==> !ExactMatch(s[i], query)
  {
    RankedShape(s, query, key);
  }

  /** The comparator finds two records equal in either order or in neither. */
  lemma CompareZeroSymmetric(a: Tagged, b: Tagged, query: string, key: string -> real)
    requires Compare(a, b, query, key) == 0
    ensures Compare(b, a, query, key) == 0
  {
  }

  /**
   * Without exact matches the comparator is consistent, and a permutation that is ranked
   * and stable is exactly the result ECMA-262 prescribes.
   */
  lemma RankedIffEcmaSorted(orig: seq<Tagged>, s: seq<Tagged>, perm: seq<nat>, query: string, key: string -> real)
    requires NoExact(s, query)
    requires Permutes(orig, s, perm)
    ensures Ranked(s, query, key) && StableFrom(s, perm, query, key) <==> EcmaSorted(orig, s, perm, query, key)
  {
    if Ranked(s, query, key) && StableFrom(s, perm, query, key) {
      forall i, j | 0 <= i < |s| && 0 <= j < |s| && Compare(s[i], s[j], query, key) < 0
        ensures i < j
      {
        CompareAsymmetric(s[i], s[j], query, key);
      }
      forall i, j | 0 <= i < |s| && 0 <= j < |s| && perm[i] < perm[j] && Compare(s[i], s[j], query, key) == 0
        ensures i < j
      {
        CompareZeroSymmetric(s[i], s[j], query, key);
      }
    }
    if EcmaSorted(orig, s, perm, query, key) {
      forall i, j | 0 <= i < j < |s|
        ensures Compare(s[i], s[j], query, key) <= 0
      {
        if Compare(s[i], s[j], query, key) > 0 {
          CompareFlip(s[i], s[j], query, key);
        }
      }
      forall p, q | 0 <= p < q < |s| && Compare(s[p], s[q], query, key) == 0
        ensures perm[p] < perm[q]
      {
        CompareZeroSymmetric(s[p], s[q], query, key);
        assert perm[p] != perm[q];
      }
    }
  }

  /**
   * Two exact matches each compare before the other, and an exact match compares before
   * itself (take `a == b`): the comparator is not consistent.
   */
  lemma TwoExactMatchesInconsistent(a: Tagged, b: Tagged, query: string, key: string -> real)
    requires ExactMatch(a, query) && ExactMatch(b, query)
    ensures Compare(a, b, query, key) < 0 && Compare(b, a, query, key) < 0
  {
  }

  /**
   * With an exact match among the records no arrangement is the result ECMA-262 prescribes
   * for a consistent comparator; the order is the engine's own.
   */
  lemma NoEcmaOrderWithExact(orig: seq<Tagged>, s: seq<Tagged>, perm: seq<nat>, query: string, key: string -> real,
                             k: nat)
    requires k < |s| && ExactMatch(s[k], query)
    ensures !EcmaSorted(orig, s, perm, query, key)
  {
    TwoExactMatchesInconsistent(s[k], s[k], query, key);
  }

  /** One step of the inner loop: swapping the moving record with the one before it keeps both runs in order. */
  lemma SwapStep(s: seq<Tagged>, t: seq<Tagged>, j: nat, i: nat, query: string, key: string -> real)
    requires 0 < j <= i < |s| && |t| == |s|
    requires t == s[j - 1 := s[j]][j := s[j - 1]]
    requires RunRanked(s, 0, j, query, key) && RunRanked(s, j, i + 1, query, key)
    requires j < i ==> Compare(s[j - 1], s[j + 1], query, key) <= 0
    requires Compare(s[j - 1], s[j], query, key) > 0
    ensures RunRanked(t, 0, j - 1, query, key) && RunRanked(t, j - 1, i + 1, query, key)
    ensures 1 < j ==> Compare(t[j - 2], t[j], query, key) <= 0
  {
    CompareFlip(s[j - 1], s[j], query, key);
  }

  /** After the inner loop the record has reached its place and the prefix is in order again. */
  lemma JoinStep(s: seq<Tagged>, j: nat, i: nat, query: string, key: string -> real)
    requires j <= i < |s|
    requires RunRanked(s, 0, j, query, key) && RunRanked(s, j, i + 1, query, key)
    requires 0 < j ==> Compare(s[j - 1], s[j], query, key) <= 0
    ensures RunRanked(s, 0, i + 1, query, key)
  {
  }

  /**
   * The invariant of the inner loop about where the records came from: `perm` tracks the
   * moves, the record at `j` is the one that started at `i`, the rest of `[0, i]` holds the
   * earlier records with equal ones in their original order, and the moving record
   * compares strictly before everything it has passed.
   */
  predicate Moving(orig: seq<Tagged>, s: seq<Tagged>, perm: seq<nat>, j: nat, i: nat, query: string, key: string -> real)
    requires j <= i < |s| == |perm|
  {
    && perm[j] == i
    && (forall k :: 0 <= k <= i && k != j ==> perm[k] < i)
    && (forall k :: i < k < |s| ==> perm[k] == k)
    && (forall p, q :: 0 <= p < q <= i && p != j && q != j && Compare(s[p], s[q], query, key) == 0 ==> perm[p] < perm[q])
    && (forall q :: j < q <= i ==> Compare(s[j], s[q], query, key) < 0)
  }

  /** The prefix `[0, i)` holds the first `i` original records, with equal ones in their original order. */
  predicate Settled(s: seq<Tagged>, perm: seq<nat>, i: nat, query: string, key: string -> real)
    requires i <= |s| == |perm|
  {
    && (forall k :: 0 <= k < i ==> perm[k] < i)
    && (forall k :: i <= k < |s| ==> perm[k] == k)
    && (forall p, q :: 0 <= p < q < i && Compare(s[p], s[q], query, key) == 0 ==> perm[p] < perm[q])
  }

  /** Swapping two neighbours in the array and in `perm` keeps `perm` a tracking permutation. */
  lemma PermutesSwap(orig: seq<Tagged>, s: seq<Tagged>, perm: seq<nat>, j: nat)
    requires Permutes(orig, s, perm) && 0 < j < |s|
    ensures Permutes(orig, s[j - 1 := s[j]][j := s[j - 1]], perm[j - 1 := perm[j]][j := perm[j - 1]])
  {
  }

  /** One swap of the inner loop moves the record one place left and keeps `Moving`. */
  lemma MovingSwap(orig: seq<Tagged>, s: seq<Tagged>, perm: seq<nat>, j: nat, i: nat, query: string, key: string -> real)
    requires 0 < j <= i < |s| == |perm|
    requires Moving(orig, s, perm, j, i, query, key)
    requires Compare(s[j - 1], s[j], query, key) > 0
    ensures Moving(orig, s[j - 1 := s[j]][j := s[j - 1]], perm[j - 1 := perm[j]][j := perm[j - 1]], j - 1, i, query, key)
  {
    var t, pt := s[j - 1 := s[j]][j := s[j - 1]], perm[j - 1 := perm[j]][j := perm[j - 1]];
    CompareFlip(s[j - 1], s[j], query, key);
    forall p, q | 0 <= p < q <= i && p != j - 1 && q != j - 1 && Compare(t[p], t[q], query, key) == 0
      ensures pt[p] < pt[q]
    {
      var p', q' := if p == j then j - 1 else p, if q == j then j - 1 else q;
      assert t[p] == s[p'] && t[q] == s[q'] && pt[p] == perm[p'] && pt[q] == perm[q'];
      assert p' < q';
    }
  }

  /** Starting the inner loop: the record at `i` has passed nothing yet. */
  lemma SettledToMoving(orig: seq<Tagged>, s: seq<Tagged>, perm: seq<nat>, i: nat, query: string, key: string -> real)
    requires i < |s| == |perm|
    requires Settled(s, perm, i, query, key)
    ensures Moving(orig, s, perm, i, i, query, key)
  {
  }

  /** Ending the inner loop: the moving record stands after every record equal to it, so `[0, i]` is settled. */
  lemma MovingToSettled(orig: seq<Tagged>, s: seq<Tagged>, perm: seq<nat>, j: nat, i: nat, query: string, key: string -> real)
    requires j <= i < |s| == |perm|
    requires Moving(orig, s, perm, j, i, query, key)
    ensures Settled(s, perm, i + 1, query, key)
  {
    forall p, q | 0 <= p < q < i + 1 && Compare(s[p], s[q], query, key) == 0
      ensures perm[p] < perm[q]
    {
      assert q == j ==> perm[p] < i;
      assert p == j ==> Compare(s[j], s[q], query, key) < 0;
    }
  }

  /** Everything the inner loop keeps while the record that started at `i` stands at `j`. */
  predicate Inserting(orig: seq<Tagged>, s: seq<Tagged>, perm: seq<nat>, j: nat, i: nat, query: string, key: string -> real) {
    && j <= i < |s| == |perm|
    && RunRanked(s, 0, j, query, key)
    && RunRanked(s, j, i + 1, query, key)
    && (0 < j < i ==> Compare(s[j - 1], s[j + 1], query, key) <= 0)
    && Permutes(orig, s, perm)
    && Moving(orig, s, perm, j, i, query, key)
  }

  /** One swap of the inner loop keeps `Inserting` one place further left, and the same records. */
  lemma InsertingSwap(orig: seq<Tagged>, s: seq<Tagged>, perm: seq<nat>, j: nat, i: nat, query: string, key: string -> real)
    requires Inserting(orig, s, perm, j, i, query, key)
    requires 0 < j && Compare(s[j - 1], s[j], query, key) > 0
    ensures Inserting(orig, s[j - 1 := s[j]][j := s[j - 1]], perm[j - 1 := perm[j]][j := perm[j - 1]], j - 1, i, query, key)
    ensures multiset(s[j - 1 := s[j]][j := s[j - 1]]) == multiset(s)
  {
    var t := s[j - 1 := s[j]][j := s[j - 1]];
    PermutesSwap(orig, s, perm, j);
    MovingSwap(orig, s, perm, j, i, query, key);
    SwapStep(s, t, j, i, query, key);
  }

  /**
   * One pass of the outer loop: the record at `i` moves left past every record the
   * comparator puts after it, so `[0, i]` is in order and settled.
   */
  method InsertAt(a: array<Tagged>, i: nat, query: string, key: string -> real, ghost orig: seq<Tagged>,
                  ghost perm0: seq<nat>)
    returns (ghost perm: seq<nat>)
    requires i < a.Length == |perm0|
    requires RunRanked(a[..], 0, i, query, key)
    requires Permutes(orig, a[..], perm0) && Settled(a[..], perm0, i, query, key)
    modifies a
    ensures RunRanked(a[..], 0, i + 1, query, key)
    ensures multiset(a[..]) == multiset(old(a[..]))
    ensures Permutes(orig, a[..], perm) && Settled(a[..], perm, i + 1, query, key)
  {
    perm := perm0;
    SettledToMoving(orig, a[..], perm, i, query, key);
    var j: nat := i;
    while 0 < j && Compare(a[j - 1], a[j], query, key) > 0
      invariant Inserting(orig, a[..], perm, j, i, query, key)
      invariant multiset(a[..]) == multiset(old(a[..]))
    {
      ghost var before := a[..];
      InsertingSwap(orig, before, perm, j, i, query, key);
      a[j - 1], a[j] := a[j], a[j - 1];
      assert a[..] == before[j - 1 := before[j]][j := before[j - 1]];
      perm := perm[j - 1 := perm[j]][j := perm[j - 1]];
      j := j - 1;
    }
    JoinStep(a[..], j, i, query, key);
    MovingToSettled(orig, a[..], perm, j, i, query, key);
  }

  /**
   * `results.sort(comparator)`: a stable insertion sort that moves a record left while the
   * comparator says it belongs earlier. `perm` records where each record came from.
   */
  method SortResults(a: array<Tagged>, query: string, key: string -> real) returns (ghost perm: seq<nat>)
    modifies a
    ensures multiset(a[..]) == multiset(old(a[..]))
    ensures Permutes(old(a[..]), a[..], perm)
    ensures Ranked(a[..], query, key)
    ensures StableFrom(a[..], perm, query, key)
  {
    ghost var orig := a[..];
    perm := seq(a.Length, k requires 0 <= k => k);
    var i := 0;
    while i < a.Length
      invariant 0 <= i <= a.Length == |perm|
      invariant RunRanked(a[..], 0, i, query, key)
      invariant multiset(a[..]) == multiset(orig)
      invariant Permutes(orig, a[..], perm)
      invariant Settled(a[..], perm, i, query, key)
    {
      perm := InsertAt(a, i, query, key, orig, perm);
      i := i + 1;
    }
    AdjacentToRanked(a[..], query, key);
  }
}
