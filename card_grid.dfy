/**
 * The card grid (src/components/CardGrid.jsx): a list of cards kept
 * sorted by `_id`, newest first, which the grid keeps up to date from the
 * card store's change feed. Cards are located by a binary search that
 * also yields the insertion point of a card that is not there.
 *
 * The `_id` comparison is PouchDB's `collate`, which is not part of this
 * model: it is a parameter `cmp`, about which only the ordering laws of
 * `IsCollation` are assumed.
 */
module CardGrid {
  import opened JsObject

  /** A card document: its `_id` and its other properties. */
  datatype CardDoc = CardDoc(id: string, fields: Object)

  /** A change record from the store's change feed. */
  datatype Change = Change(id: string, doc: CardDoc, deleted: bool)

  /** The store reports a change of document `id` with that document (or a deletion). */
  predicate WellFormedChange(change: Change) {
    change.deleted || change.doc.id == change.id
  }

  /** `cmp(a, b)`, named so that the laws below apply only where invoked. */
  ghost function Cmp(cmp: (string, string) -> int, a: string, b: string): int {
    cmp(a, b)
  }

  /**
   * The laws of a comparison returning negative, zero or positive: the
   * sign flips when the arguments are swapped, and "greater" is transitive,
   * also through arguments that compare equal.
   */
  ghost predicate IsCollation(cmp: (string, string) -> int) {
    (forall a, b :: Cmp(cmp, a, b) < 0 <==> Cmp(cmp, b, a) > 0) &&
    (forall a, b, c :: Cmp(cmp, a, b) > 0 && Cmp(cmp, b, c) > 0 ==> Cmp(cmp, a, c) > 0) &&
    (forall a, b, c :: Cmp(cmp, a, b) > 0 && Cmp(cmp, b, c) == 0 ==> Cmp(cmp, a, c) > 0) &&
    (forall a, b, c :: Cmp(cmp, a, b) == 0 && Cmp(cmp, b, c) > 0 ==> Cmp(cmp, a, c) > 0)
  }

  /** Swapping the arguments flips the sign. */
  lemma Flip(cmp: (string, string) -> int, a: string, b: string)
    requires IsCollation(cmp)
    ensures cmp(a, b) < 0 <==> cmp(b, a) > 0
    ensures cmp(a, b) > 0 <==> cmp(b, a) < 0
    ensures cmp(a, b) == 0 <==> cmp(b, a) == 0
  {
    assert Cmp(cmp, a, b) < 0 <==> Cmp(cmp, b, a) > 0;
    assert Cmp(cmp, b, a) < 0 <==> Cmp(cmp, a, b) > 0;
  }

  /** "Greater" chains, also through one step that compares equal. */
  lemma Chain(cmp: (string, string) -> int, a: string, b: string, c: string)
    requires IsCollation(cmp)
    ensures (cmp(a, b) > 0 && cmp(b, c) >= 0) || (cmp(a, b) >= 0 && cmp(b, c) > 0) ==> cmp(a, c) > 0
  {
    assert Cmp(cmp, a, b) == cmp(a, b) && Cmp(cmp, b, c) == cmp(b, c) && Cmp(cmp, a, c) == cmp(a, c);
  }

  /** Lexicographic order of strings by character. */
  predicate Less(a: string, b: string)
    decreases |a|
  {
    if a == [] then b != []
    else if b == [] then false
    else if a[0] != b[0] then a[0] < b[0]
    else Less(a[1..], b[1..])
  }

  /**
   * The comparison of two strings as a collation: zero for equal strings,
   * otherwise the sign of their lexicographic order. It shows that the laws
   * of `IsCollation` can be met; it is not `collate`'s exact string order,
   * since it compares characters as Unicode scalar values where JavaScript
   * compares UTF-16 code units, and the two orders differ outside the Basic
   * Multilingual Plane.
   */
  function StringCollate(a: string, b: string): int {
    if a == b then 0 else if Less(b, a) then 1 else -1
  }

  lemma {:induction false} LessIrreflexive(a: string)
    ensures !Less(a, a)
    decreases |a|
  {
    if a != [] {
      LessIrreflexive(a[1..]);
    }
  }

  lemma {:induction false} LessTotal(a: string, b: string)
    ensures a == b || Less(a, b) || Less(b, a)
    decreases |a|
  {
    if a != [] && b != [] && a[0] == b[0] {
      LessTotal(a[1..], b[1..]);
      if a[1..] == b[1..] {
        assert a == [a[0]] + a[1..] && b == [b[0]] + b[1..];
      }
    }
  }

  lemma {:induction false} LessAsymmetric(a: string, b: string)
    ensures Less(a, b) ==> !Less(b, a)
    decreases |a|
  {
    if a != [] && b != [] && a[0] == b[0] {
      LessAsymmetric(a[1..], b[1..]);
    }
  }

  lemma {:induction false} LessTransitive(a: string, b: string, c: string)
    ensures Less(a, b) && Less(b, c) ==> Less(a, c)
    decreases |a|
  {
    if a != [] && b != [] && c != [] && a[0] == b[0] && b[0] == c[0] {
      LessTransitive(a[1..], b[1..], c[1..]);
    }
  }

  /** The string comparison satisfies the laws the grid relies on. */
  lemma StringCollateIsCollation()
    ensures IsCollation(StringCollate)
  {
    forall a, b ensures Cmp(StringCollate, a, b) < 0 <==> Cmp(StringCollate, b, a) > 0 {
      LessIrreflexive(a);
      LessTotal(a, b);
      LessAsymmetric(a, b);
    }
    forall a, b, c | Cmp(StringCollate, a, b) > 0 && Cmp(StringCollate, b, c) > 0
      ensures Cmp(StringCollate, a, c) > 0
    {
      LessTransitive(c, b, a);
      LessIrreflexive(a);
    }
  }

  /** Cards in strictly descending `_id` order. */
  ghost predicate SortedDesc(cmp: (string, string) -> int, cards: seq<CardDoc>) {
    forall i, j :: 0 <= i < j < |cards| ==> cmp(cards[i].id, cards[j].id) > 0
  }

  /**
   * The reference for the search: the number of leading cards whose id
   * compares greater than `id`, that is, the first index whose card does not.
   */
  function Position(cmp: (string, string) -> int, cards: seq<CardDoc>, id: string): (p: nat)
    ensures p <= |cards|
    ensures forall k :: 0 <= k < p ==> cmp(cards[k].id, id) > 0
    ensures p < |cards| ==> cmp(cards[p].id, id) <= 0
  {
    if cards == [] || cmp(cards[0].id, id) <= 0 then 0
    else 1 + Position(cmp, cards[1..], id)
  }

  /** Any index with the two properties of `Position` is `Position`. */
  lemma PositionUnique(cmp: (string, string) -> int, cards: seq<CardDoc>, id: string, p: nat)
    requires p <= |cards|
    requires forall k :: 0 <= k < p ==> cmp(cards[k].id, id) > 0
    requires p < |cards| ==> cmp(cards[p].id, id) <= 0
    ensures p == Position(cmp, cards, id)
  {
  }

  /** In sorted cards every card after `Position` compares below `id`. */
  lemma AfterPosition(cmp: (string, string) -> int, cards: seq<CardDoc>, id: string)
    requires IsCollation(cmp) && SortedDesc(cmp, cards)
    ensures forall k :: Position(cmp, cards, id) < k < |cards| ==> cmp(cards[k].id, id) < 0
  {
    var p := Position(cmp, cards, id);
    forall k | p < k < |cards| ensures cmp(cards[k].id, id) < 0 {
      Flip(cmp, id, cards[p].id);
      Chain(cmp, id, cards[p].id, cards[k].id);
      Flip(cmp, cards[k].id, id);
    }
  }

  /** A card below one that compares at most `id` compares below `id`. */
  lemma BelowAfter(cmp: (string, string) -> int, cards: seq<CardDoc>, id: string, g: nat)
    requires IsCollation(cmp) && SortedDesc(cmp, cards) && g < |cards| && cmp(cards[g].id, id) <= 0
    ensures forall k :: g < k < |cards| ==> cmp(cards[k].id, id) < 0
  {
    forall k | g < k < |cards| ensures cmp(cards[k].id, id) < 0 {
      Flip(cmp, id, cards[g].id);
      Chain(cmp, id, cards[g].id, cards[k].id);
      Flip(cmp, cards[k].id, id);
    }
  }

  /** A card above one that compares at least `id` compares above `id`. */
  lemma AboveBefore(cmp: (string, string) -> int, cards: seq<CardDoc>, id: string, g: nat)
    requires IsCollation(cmp) && SortedDesc(cmp, cards) && g < |cards| && cmp(cards[g].id, id) >= 0
    ensures forall k :: 0 <= k < g ==> cmp(cards[k].id, id) > 0
  {
    forall k | 0 <= k < g ensures cmp(cards[k].id, id) > 0 {
      Chain(cmp, cards[k].id, cards[g].id, id);
    }
  }

  /**
   * `findCard(id, cards)`: binary search in cards sorted newest first.
   * A hit is a card comparing equal to `id`; a miss gives `Math.max(min, max)`
   * with the bounds where the search stopped. On sorted cards the index is
   * `Position` in both cases, so a miss gives the index at which inserting
   * the card keeps the cards sorted, and the search misses only when no
   * card compares equal.
   */
  method FindCard(cmp: (string, string) -> int, id: string, cards: seq<CardDoc>) returns (found: bool, index: nat)
    ensures found ==> index < |cards| && cmp(cards[index].id, id) == 0
    ensures !found ==> index <= |cards|
    ensures IsCollation(cmp) && SortedDesc(cmp, cards) ==> index == Position(cmp, cards, id)
    ensures IsCollation(cmp) && SortedDesc(cmp, cards) ==>
      (found <==> exists k :: 0 <= k < |cards| && cmp(cards[k].id, id) == 0)
  {
    ghost var ordered := IsCollation(cmp) && SortedDesc(cmp, cards);
    var min: int := 0;
    var max: int := |cards| - 1;
    while min <= max
      invariant 0 <= min <= max + 1 <= |cards|
      invariant ordered ==> forall k :: 0 <= k < min ==> cmp(cards[k].id, id) > 0
      invariant ordered ==> forall k :: max < k < |cards| ==> cmp(cards[k].id, id) < 0
      decreases max - min
    {
      var guess := (min + max) / 2;
      var result := cmp(cards[guess].id, id);
      if result == 0 {
        if ordered {
          AboveBefore(cmp, cards, id, guess);
          PositionUnique(cmp, cards, id, guess);
        }
        return true, guess;
      }
      if result > 0 {
        if ordered {
          AboveBefore(cmp, cards, id, guess);
        }
        min := guess + 1;
      } else {
        if ordered {
          BelowAfter(cmp, cards, id, guess);
        }
        max := guess - 1;
      }
    }
    found := false;
    index := Max(min, max);
    if ordered {
      PositionUnique(cmp, cards, id, index);
    }
  }

  /** `Math.max`. */
  function Max(a: int, b: int): (m: int)
    ensures m >= a && m >= b && (m == a || m == b)
  {
    if a >= b then a else b
  }

  /** The cards comparing equal to `id` (`matching`) or not (`!matching`), in order. */
  function Select(cmp: (string, string) -> int, cards: seq<CardDoc>, id: string, matching: bool): (r: seq<CardDoc>)
    ensures |r| <= |cards|
  {
    if cards == [] then []
    else
      var rest := Select(cmp, cards[1..], id, matching);
      if (cmp(cards[0].id, id) == 0) == matching then [cards[0]] + rest else rest
  }

  lemma {:induction false} SelectConcat(cmp: (string, string) -> int, a: seq<CardDoc>, b: seq<CardDoc>, id: string, matching: bool)
    ensures Select(cmp, a + b, id, matching) == Select(cmp, a, id, matching) + Select(cmp, b, id, matching)
  {
    if a == [] {
      assert a + b == b;
    } else {
      assert (a + b)[0] == a[0];
      assert (a + b)[1..] == a[1..] + b;
      SelectConcat(cmp, a[1..], b, id, matching);
    }
  }

  /** `cards.splice(p, n, ...ins)` on a copy: the `n` cards at `p` replaced by `ins`. */
  function Splice(cards: seq<CardDoc>, p: nat, n: nat, ins: seq<CardDoc>): (r: seq<CardDoc>)
    requires p + n <= |cards|
    ensures |r| == |cards| - n + |ins|
  {
    cards[..p] + ins + cards[p + n..]
  }

  /**
   * Where each card ends up after a splice: the cards before `p` stay, the
   * inserted ones follow from `p`, and the cards after the removed ones
   * shift by the difference in length.
   */
  lemma SpliceElements(cards: seq<CardDoc>, p: nat, n: nat, ins: seq<CardDoc>)
    requires p + n <= |cards|
    ensures var r := Splice(cards, p, n, ins);
      && (forall i :: 0 <= i < p ==> r[i] == cards[i])
      && (forall i :: 0 <= i < |ins| ==> r[p + i] == ins[i])
      && (forall i :: p + n <= i < |cards| ==> r[i - n + |ins|] == cards[i])
  {
  }

  /**
   * The change handler's effect on the cards (the component's state): a
   * card found is removed on a deletion and replaced by the new document
   * otherwise; a card not found is inserted unless the change is a
   * deletion, which then leaves the cards as they are. The card is looked
   * up at `Position`, which on sorted cards is the index and the outcome of
   * the search (`FindCard`, `HitIsSearch`); on unsorted cards the two can
   * differ.
   */
  function ApplyChange(cmp: (string, string) -> int, cards: seq<CardDoc>, change: Change): (r: seq<CardDoc>)
    ensures forall x :: x in r ==> x in cards || x == change.doc
  {
    var p := Position(cmp, cards, change.id);
    if Hit(cmp, cards, change.id) then
      if change.deleted then Splice(cards, p, 1, []) else cards[p := change.doc]
    else if !change.deleted then Splice(cards, p, 0, [change.doc])
    else cards
  }

  /** The card at `Position` compares equal to `id`: the search finds it. */
  predicate Hit(cmp: (string, string) -> int, cards: seq<CardDoc>, id: string) {
    var p := Position(cmp, cards, id);
    p < |cards| && cmp(cards[p].id, id) == 0
  }

  /** On sorted cards `Hit` is the outcome of the search: some card compares equal to `id`. */
  lemma HitIsSearch(cmp: (string, string) -> int, cards: seq<CardDoc>, id: string)
    requires IsCollation(cmp) && SortedDesc(cmp, cards)
    ensures Hit(cmp, cards, id) <==> exists k :: 0 <= k < |cards| && cmp(cards[k].id, id) == 0
  {
    var p := Position(cmp, cards, id);
    if k :| 0 <= k < |cards| && cmp(cards[k].id, id) == 0 {
      AfterPosition(cmp, cards, id);
      assert k == p;
    }
  }

  /** The cards a change puts in: its document, unless it is a deletion. */
  function Inserted(change: Change): seq<CardDoc> {
    if change.deleted then [] else [change.doc]
  }

  /** Every outcome of a change is one splice at `Position`. */
  lemma ApplyChangeAsSplice(cmp: (string, string) -> int, cards: seq<CardDoc>, change: Change)
    ensures var p := Position(cmp, cards, change.id);
      var n := if Hit(cmp, cards, change.id) then 1 else 0;
      p + n <= |cards| && ApplyChange(cmp, cards, change) == Splice(cards, p, n, Inserted(change))
  {
    var p := Position(cmp, cards, change.id);
    if Hit(cmp, cards, change.id) && !change.deleted {
      UpdateIsSplice(cards, p, change.doc);
    } else if !Hit(cmp, cards, change.id) && change.deleted {
      SpliceItself(cards, p, 0);
    }
  }

  /** An id compares equal to itself. */
  lemma CompareSelf(cmp: (string, string) -> int, a: string)
    requires IsCollation(cmp)
    ensures cmp(a, a) == 0
  {
    Flip(cmp, a, a);
  }

  /** Splicing a slice back in place changes nothing. */
  lemma SpliceItself(s: seq<CardDoc>, p: nat, n: nat)
    requires p + n <= |s|
    ensures Splice(s, p, n, s[p..p + n]) == s
  {
  }

  /** `s[p := x]` as a splice. */
  lemma UpdateIsSplice(s: seq<CardDoc>, p: nat, x: CardDoc)
    requires p < |s|
    ensures s[p := x] == Splice(s, p, 1, [x])
  {
  }

  lemma SelectSingle(cmp: (string, string) -> int, x: CardDoc, id: string, matching: bool)
    ensures Select(cmp, [x], id, matching) == if (cmp(x.id, id) == 0) == matching then [x] else []
  {
  }

  /** Selecting from cards none of which qualifies gives nothing. */
  lemma {:induction false} SelectNone(cmp: (string, string) -> int, cards: seq<CardDoc>, id: string, matching: bool)
    requires forall x :: x in cards ==> (cmp(x.id, id) == 0) != matching
    ensures Select(cmp, cards, id, matching) == []
  {
    if cards != [] {
      assert cards[0] in cards;
      assert forall x :: x in cards[1..] ==> x in cards;
      SelectNone(cmp, cards[1..], id, matching);
    }
  }

  /** The same for a slice given by its indices. */
  lemma SelectNoneRange(cmp: (string, string) -> int, cards: seq<CardDoc>, id: string, lo: nat, hi: nat, matching: bool)
    requires lo <= hi <= |cards|
    requires forall k :: lo <= k < hi ==> (cmp(cards[k].id, id) == 0) != matching
    ensures Select(cmp, cards[lo..hi], id, matching) == []
  {
    forall x | x in cards[lo..hi] ensures (cmp(x.id, id) == 0) != matching {
      var k :| lo <= k < hi && cards[k] == x;
    }
    SelectNone(cmp, cards[lo..hi], id, matching);
  }

  /** Selecting from a splice: the kept parts and the inserted cards, in order. */
  lemma SpliceSelect(cmp: (string, string) -> int, cards: seq<CardDoc>, id: string, p: nat, n: nat, ins: seq<CardDoc>, matching: bool)
    requires p + n <= |cards|
    ensures Select(cmp, Splice(cards, p, n, ins), id, matching) ==
      Select(cmp, cards[..p], id, matching) + Select(cmp, ins, id, matching) + Select(cmp, cards[p + n..], id, matching)
    ensures Select(cmp, cards, id, matching) ==
      Select(cmp, cards[..p], id, matching) + Select(cmp, cards[p..p + n], id, matching) + Select(cmp, cards[p + n..], id, matching)
  {
    assert cards == cards[..p] + cards[p..p + n] + cards[p + n..];
    SelectConcat(cmp, cards[..p] + cards[p..p + n], cards[p + n..], id, matching);
    SelectConcat(cmp, cards[..p], cards[p..p + n], id, matching);
    SelectConcat(cmp, cards[..p] + ins, cards[p + n..], id, matching);
    SelectConcat(cmp, cards[..p], ins, id, matching);
  }

  /**
   * The four outcomes of a change: a found card is removed (one card
   * fewer) or replaced in place (same length, only that index differs); a
   * card not found is inserted (one card more) or, on a deletion, the
   * cards stay as they are.
   */
  lemma ApplyChangeCases(cmp: (string, string) -> int, cards: seq<CardDoc>, change: Change)
    ensures var r := ApplyChange(cmp, cards, change); var p := Position(cmp, cards, change.id);
      && (Hit(cmp, cards, change.id) && change.deleted ==>
            |r| == |cards| - 1 && forall k :: 0 <= k < |r| ==> r[k] == cards[if k < p then k else k + 1])
      && (Hit(cmp, cards, change.id) && !change.deleted ==>
            |r| == |cards| && r[p] == change.doc && forall k :: 0 <= k < |r| && k != p ==> r[k] == cards[k])
      && (!Hit(cmp, cards, change.id) && !change.deleted ==>
            |r| == |cards| + 1 && r[p] == change.doc &&
            forall k :: 0 <= k < |r| && k != p ==> r[k] == cards[if k < p then k else k - 1])
      && (!Hit(cmp, cards, change.id) && change.deleted ==> r == cards)
  {
    var r := ApplyChange(cmp, cards, change);
    var p := Position(cmp, cards, change.id);
    if Hit(cmp, cards, change.id) && change.deleted {
      assert r == cards[..p] + cards[p + 1..];
      forall k | 0 <= k < |r| ensures r[k] == cards[if k < p then k else k + 1] {
        if k < p {
          assert r[k] == cards[..p][k];
        } else {
          assert r[k] == cards[p + 1..][k - p];
        }
      }
    } else if !Hit(cmp, cards, change.id) && !change.deleted {
      assert r == cards[..p] + [change.doc] + cards[p..];
      forall k | 0 <= k < |r| && k != p ensures r[k] == cards[if k < p then k else k - 1] {
        if k < p {
          assert r[k] == cards[..p][k];
        } else {
          assert r[k] == cards[p..][k - p - 1];
        }
      }
    }
  }

  /**
   * A change never disturbs the cards with other ids: they are the same
   * cards in the same order afterwards.
   */
  lemma ApplyChangeKeepsOthers(cmp: (string, string) -> int, cards: seq<CardDoc>, change: Change)
    requires IsCollation(cmp) && WellFormedChange(change)
    ensures Select(cmp, ApplyChange(cmp, cards, change), change.id, false) == Select(cmp, cards, change.id, false)
  {
    var id := change.id;
    var p := Position(cmp, cards, id);
    var n := if Hit(cmp, cards, id) then 1 else 0;
    var ins := Inserted(change);
    ApplyChangeAsSplice(cmp, cards, change);
    if !change.deleted {
      CompareSelf(cmp, id);
    }
    SelectNone(cmp, ins, id, false);
    SpliceSelect(cmp, cards, id, p, n, ins, false);
    SelectNoneRange(cmp, cards, id, p, p + n, false);
  }

  /** In sorted cards at most the card at `Position` compares equal to `id`. */
  lemma SelectMatchingSorted(cmp: (string, string) -> int, cards: seq<CardDoc>, id: string)
    requires IsCollation(cmp) && SortedDesc(cmp, cards)
    ensures var p := Position(cmp, cards, id);
      Select(cmp, cards, id, true) == if p < |cards| && cmp(cards[p].id, id) == 0 then [cards[p]] else []
  {
    var p := Position(cmp, cards, id);
    AfterPosition(cmp, cards, id);
    var n := if p < |cards| then 1 else 0;
    SpliceItself(cards, p, n);
    SpliceMatching(cmp, cards, id, p, n, cards[p..p + n]);
    if p < |cards| {
      assert cards[p..p + n] == [cards[p]];
      SelectSingle(cmp, cards[p], id, true);
    }
  }

  /**
   * On sorted cards the change leaves exactly one card with the changed id,
   * the new document, or none after a deletion.
   */
  lemma ApplyChangeMatching(cmp: (string, string) -> int, cards: seq<CardDoc>, change: Change)
    requires IsCollation(cmp) && SortedDesc(cmp, cards) && WellFormedChange(change)
    ensures Select(cmp, ApplyChange(cmp, cards, change), change.id, true) == if change.deleted then [] else [change.doc]
  {
    var id := change.id;
    var p := Position(cmp, cards, id);
    var n := if Hit(cmp, cards, id) then 1 else 0;
    var ins := Inserted(change);
    ApplyChangeAsSplice(cmp, cards, change);
    AfterPosition(cmp, cards, id);
    if !change.deleted {
      CompareSelf(cmp, id);
      SelectSingle(cmp, change.doc, id, true);
    }
    SpliceMatching(cmp, cards, id, p, n, ins);
  }

  /** Splicing over the only cards that compare equal to `id` leaves the inserted ones. */
  lemma SpliceMatching(cmp: (string, string) -> int, cards: seq<CardDoc>, id: string, p: nat, n: nat, ins: seq<CardDoc>)
    requires p + n <= |cards|
    requires forall k :: 0 <= k < p ==> cmp(cards[k].id, id) != 0
    requires forall k :: p + n <= k < |cards| ==> cmp(cards[k].id, id) != 0
    ensures Select(cmp, Splice(cards, p, n, ins), id, true) == Select(cmp, ins, id, true)
  {
    SpliceSelect(cmp, cards, id, p, n, ins, true);
    SelectNoneRange(cmp, cards, id, 0, p, true);
    SelectNoneRange(cmp, cards, id, p + n, |cards|, true);
    assert cards[p + n..|cards|] == cards[p + n..];
  }

  /** The change keeps sorted cards sorted. */
  lemma ApplyChangeSorted(cmp: (string, string) -> int, cards: seq<CardDoc>, change: Change)
    requires IsCollation(cmp) && SortedDesc(cmp, cards) && WellFormedChange(change)
    ensures SortedDesc(cmp, ApplyChange(cmp, cards, change))
  {
    var id := change.id;
    var p := Position(cmp, cards, id);
    var found := Hit(cmp, cards, id);
    if found && change.deleted {
      RemoveKeepsSorted(cmp, cards, p);
    } else if !change.deleted {
      var doc := change.doc;
      var n := if found then 1 else 0;
      AfterPosition(cmp, cards, id);
      forall k | p + n <= k < |cards| ensures cmp(doc.id, cards[k].id) > 0 {
        Flip(cmp, cards[k].id, id);
      }
      if found {
        ReplaceKeepsSorted(cmp, cards, p, doc);
      } else {
        InsertKeepsSorted(cmp, cards, p, doc);
      }
    }
  }

  lemma RemoveKeepsSorted(cmp: (string, string) -> int, cards: seq<CardDoc>, p: nat)
    requires p < |cards| && SortedDesc(cmp, cards)
    ensures SortedDesc(cmp, Splice(cards, p, 1, []))
  {
  }

  lemma ReplaceKeepsSorted(cmp: (string, string) -> int, cards: seq<CardDoc>, p: nat, doc: CardDoc)
    requires p < |cards| && SortedDesc(cmp, cards)
    requires forall k :: 0 <= k < p ==> cmp(cards[k].id, doc.id) > 0
    requires forall k :: p < k < |cards| ==> cmp(doc.id, cards[k].id) > 0
    ensures SortedDesc(cmp, cards[p := doc])
  {
  }

  lemma InsertKeepsSorted(cmp: (string, string) -> int, cards: seq<CardDoc>, p: nat, doc: CardDoc)
    requires p <= |cards| && SortedDesc(cmp, cards)
    requires forall k :: 0 <= k < p ==> cmp(cards[k].id, doc.id) > 0
    requires forall k :: p <= k < |cards| ==> cmp(doc.id, cards[k].id) > 0
    ensures SortedDesc(cmp, Splice(cards, p, 0, [doc]))
  {
  }

  /**
   * The grid component's state: the cards it shows, in descending id
   * order, and the comparison it sorts them by.
   */
  class CardGridView {
    const collate: (string, string) -> int
    var cards: seq<CardDoc>

    ghost predicate Valid()
      reads this
    {
      IsCollation(collate) && SortedDesc(collate, cards)
    }

    /** The component starts with no cards. */
    constructor (collate: (string, string) -> int)
      requires IsCollation(collate)
      ensures this.collate == collate && cards == [] && Valid()
    {
      this.collate := collate;
      cards := [];
    }

    /** The store's initial list of cards arrives (sorted, newest first). */
    method SetCards(initial: seq<CardDoc>)
      requires Valid() && SortedDesc(collate, initial)
      modifies this
      ensures cards == initial && Valid()
    {
      cards := initial;
    }

    /**
     * The change-feed handler: it searches a copy of the cards for the
     * changed id and removes, replaces or inserts the card, then stores
     * the copy as the new state; a deletion of a card it does not show
     * leaves the state alone.
     */
    method OnChange(change: Change)
      requires Valid() && WellFormedChange(change)
      modifies this
      ensures cards == ApplyChange(collate, old(cards), change) && Valid()
    {
      var next := cards;
      var found, index := FindCard(collate, change.id, next);
      if found {
        if change.deleted {
          next := Splice(next, index, 1, []);
        } else {
          next := next[index := change.doc];
        }
        cards := next;
      } else if !change.deleted {
        next := Splice(next, index, 0, [change.doc]);
        cards := next;
      }
      ApplyChangeSorted(collate, old(cards), change);
    }
  }
}
