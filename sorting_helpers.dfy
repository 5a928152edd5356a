/**
 * The data of a sorting exercise and the three helpers of the sorting view:
 * building the all-in-bank placement map, grouping the cards by the container
 * they are shown in, and counting the placements that name a container.
 * Each helper is a loop proved against a specification: the predicate
 * `AllInBank`, the recursive function `Group` with the map `BucketLists`, and
 * the set `KeysIn`. The partition and counting properties are proved about those.
 */
module SortingHelpers {

  /** The pseudo-container of the cards that are not placed yet. */
  const Bank: string := "bank"

  type CardId = string

  /** `"bank"` or the id of a bucket. */
  type ContainerId = string

  /** Card id to the container the card was last moved to. */
  type Placements = map<CardId, ContainerId>

  datatype Card = Card(id: CardId, text: string)

  /** A target category; `caption` is the source's `label`, a reserved word in Dafny. */
  datatype Bucket = Bucket(id: string, caption: string)

  /** A sorting exercise: its cards and buckets, both in display order. */
  datatype SortingStep = SortingStep(id: string, prompt: string, cards: seq<Card>, buckets: seq<Bucket>)

  /** `step.buckets.map((b) => b.id)` */
  function BucketIds(buckets: seq<Bucket>): (ids: seq<string>)
    ensures |ids| == |buckets|
    ensures forall i :: 0 <= i < |buckets| ==> ids[i] == buckets[i].id
  {
    seq(|buckets|, i requires 0 <= i < |buckets| => buckets[i].id)
  }

  /** `["bank", ...step.buckets.map((b) => b.id)]`: the zones a card may be dropped on. */
  function ContainerIds(step: SortingStep): (r: seq<ContainerId>)
    ensures |r| == |step.buckets| + 1 && r[0] == Bank
    ensures forall i :: 0 <= i < |step.buckets| ==> r[i + 1] == step.buckets[i].id
  {
    [Bank] + BucketIds(step.buckets)
  }

  function CardIds(cards: seq<Card>): set<CardId>
  {
    set c | c in cards :: c.id
  }

  /** `placements[id] ?? "bank"`: a card with no entry counts as being in the bank. */
  function Where(p: Placements, id: CardId): (r: ContainerId)
    ensures r == Bank || r in p.Values
    ensures id in p ==> r == p[id]
    ensures id !in p ==> r == Bank
  {
    if id in p then p[id] else Bank
  }

  /**
   * The container under which grouping lists a card: the container its
   * placement names when that is a bucket of the exercise, and the bank when
   * the card has no placement, is placed in the bank, or names a bucket the
   * exercise does not have.
   */
  function Destination(buckets: seq<Bucket>, p: Placements, card: Card): (r: ContainerId)
    ensures r == Bank || (r == Where(p, card.id) && r in BucketIds(buckets))
  {
    var where := Where(p, card.id);
    if where != Bank && where in BucketIds(buckets) then where else Bank
  }

  /**
   * Bank fallback: a card is listed under the bank exactly when it has no
   * entry, its entry is the bank, or its entry names a bucket the exercise
   * does not have; otherwise it is listed under the bucket its entry names.
   */
  lemma DestinationCases(buckets: seq<Bucket>, p: Placements, card: Card)
    ensures var d := Destination(buckets, p, card);
      && (d == Bank <==> (card.id !in p || p[card.id] == Bank || p[card.id] !in BucketIds(buckets)))
      && (d != Bank ==> card.id in p && d == p[card.id] && d in BucketIds(buckets))
  {
  }

  /**
   * The cards of `cards` listed under container `z`, in the order of `cards`;
   * `GroupAtSelected` states what it holds.
   */
  function Group(cards: seq<Card>, buckets: seq<Bucket>, p: Placements, z: ContainerId): seq<Card>
  {
    if cards == [] then []
    else
      var last := cards[|cards| - 1];
      Group(cards[..|cards| - 1], buckets, p, z) + (if Destination(buckets, p, last) == z then [last] else [])
  }

  /** Extending a prefix of the cards by one card extends each group by at most that card. */
  lemma GroupOfPrefix(cards: seq<Card>, buckets: seq<Bucket>, p: Placements, i: nat, z: ContainerId)
    requires i < |cards|
    ensures Group(cards[..i + 1], buckets, p, z)
      == Group(cards[..i], buckets, p, z) + (if Destination(buckets, p, cards[i]) == z then [cards[i]] else [])
  {
    assert cards[..i + 1][..i] == cards[..i];
  }

  /**
   * The positions in `cards` of the cards listed under `z`: increasing, and
   * holding a position exactly when the card there is listed under `z`.
   */
  function Selected(cards: seq<Card>, buckets: seq<Bucket>, p: Placements, z: ContainerId): (idx: seq<nat>)
    ensures forall k :: 0 <= k < |idx| ==> idx[k] < |cards|
    ensures forall k, l :: 0 <= k < l < |idx| ==> idx[k] < idx[l]
    ensures forall i :: 0 <= i < |cards| ==> (i in idx <==> Destination(buckets, p, cards[i]) == z)
  {
    if cards == [] then []
    else
      var n := |cards| - 1;
      var prefix := Selected(cards[..n], buckets, p, z);
      assert forall i :: 0 <= i < n ==> cards[..n][i] == cards[i];
      prefix + (if Destination(buckets, p, cards[n]) == z then [n] else [])
  }

  /** The group of `z` is exactly the cards at the positions `Selected` picks, in that order. */
  lemma {:induction false} GroupAtSelected(cards: seq<Card>, buckets: seq<Bucket>, p: Placements, z: ContainerId)
    ensures var g, idx := Group(cards, buckets, p, z), Selected(cards, buckets, p, z);
      |g| == |idx| && forall k :: 0 <= k < |idx| ==> g[k] == cards[idx[k]]
  {
    if cards != [] {
      var n := |cards| - 1;
      GroupAtSelected(cards[..n], buckets, p, z);
      var g0, idx0 := Group(cards[..n], buckets, p, z), Selected(cards[..n], buckets, p, z);
      var hit := Destination(buckets, p, cards[n]) == z;
      assert Group(cards, buckets, p, z) == g0 + (if hit then [cards[n]] else []);
      assert Selected(cards, buckets, p, z) == idx0 + (if hit then [n] else []);
      PairedExtend(cards, g0, idx0, hit);
    }
  }

  /** Extending paired lists of cards and their positions by the last card keeps them paired. */
  lemma PairedExtend(cards: seq<Card>, g0: seq<Card>, idx0: seq<nat>, hit: bool)
    requires cards != [] && |g0| == |idx0|
    requires forall k :: 0 <= k < |idx0| ==> idx0[k] < |cards| - 1 && g0[k] == cards[..|cards| - 1][idx0[k]]
    ensures var n := |cards| - 1;
      var g, idx := g0 + (if hit then [cards[n]] else []), idx0 + (if hit then [n] else []);
      |g| == |idx| && forall k :: 0 <= k < |idx| ==> g[k] == cards[idx[k]]
  {
    var n := |cards| - 1;
    var g, idx := g0 + (if hit then [cards[n]] else []), idx0 + (if hit then [n] else []);
    forall k | 0 <= k < |idx| ensures g[k] == cards[idx[k]] {
      if k < |idx0| {
        assert g[k] == g0[k] && idx[k] == idx0[k];
      }
    }
  }

  /** A card at position `i` is listed under its destination, and the group is then not empty. */
  lemma CardListedAtDestination(cards: seq<Card>, buckets: seq<Bucket>, p: Placements, i: nat)
    requires i < |cards|
    ensures cards[i] in Group(cards, buckets, p, Destination(buckets, p, cards[i]))
  {
    var z := Destination(buckets, p, cards[i]);
    var idx := Selected(cards, buckets, p, z);
    GroupAtSelected(cards, buckets, p, z);
    var k :| 0 <= k < |idx| && idx[k] == i;
    assert Group(cards, buckets, p, z)[k] == cards[i];
  }

  /** A group is empty exactly when no card has that destination. */
  lemma GroupEmptyIff(cards: seq<Card>, buckets: seq<Bucket>, p: Placements, z: ContainerId)
    ensures Group(cards, buckets, p, z) == [] <==> forall i :: 0 <= i < |cards| ==> Destination(buckets, p, cards[i]) != z
  {
    GroupAtSelected(cards, buckets, p, z);
    var idx := Selected(cards, buckets, p, z);
    if Group(cards, buckets, p, z) != [] {
      assert idx[0] in idx;
    } else {
      forall i | 0 <= i < |cards| ensures Destination(buckets, p, cards[i]) != z {
        assert i !in idx;
      }
    }
  }

  // ---------- buildInitialPlacements ----------

  /** Every card of `cards`, and nothing else, has an entry, and every entry is the bank. */
  predicate AllInBank(cards: seq<Card>, p: Placements)
  {
    p.Keys == CardIds(cards) && forall k :: k in p ==> p[k] == Bank
  }

  /** `buildInitialPlacements`: one "bank" entry per card. */
  method BuildInitialPlacements(step: SortingStep) returns (p: Placements)
    ensures AllInBank(step.cards, p)
  {
    p := map[];
    for i := 0 to |step.cards|
      invariant p.Keys == set j | 0 <= j < i :: step.cards[j].id
      invariant forall k :: k in p ==> p[k] == Bank
    {
      p := p[step.cards[i].id := Bank];
    }
    assert forall c :: c in step.cards ==> exists j :: 0 <= j < |step.cards| && step.cards[j] == c;
  }

  /** With all-bank placements every card is listed in the bank and no bucket lists any. */
  lemma AllInBankGroups(cards: seq<Card>, buckets: seq<Bucket>, p: Placements, z: ContainerId)
    requires forall k :: k in p ==> p[k] == Bank
    ensures Group(cards, buckets, p, z) == if z == Bank then cards else []
  {
    if z == Bank {
      AllInBankBankGroup(cards, buckets, p);
    } else {
      AllInBankOtherGroup(cards, buckets, p, z);
    }
  }

  lemma {:induction false} AllInBankBankGroup(cards: seq<Card>, buckets: seq<Bucket>, p: Placements)
    requires forall k :: k in p ==> p[k] == Bank
    ensures Group(cards, buckets, p, Bank) == cards
  {
    if cards != [] {
      var n := |cards| - 1;
      AllInBankBankGroup(cards[..n], buckets, p);
      assert Where(p, cards[n].id) == Bank;
      assert Destination(buckets, p, cards[n]) == Bank;
      assert Group(cards, buckets, p, Bank) == cards[..n] + [cards[n]];
      assert cards[..n] + [cards[n]] == cards;
    }
  }

  lemma {:induction false} AllInBankOtherGroup(cards: seq<Card>, buckets: seq<Bucket>, p: Placements, z: ContainerId)
    requires forall k :: k in p ==> p[k] == Bank
    requires z != Bank
    ensures Group(cards, buckets, p, z) == []
  {
    if cards != [] {
      var n := |cards| - 1;
      AllInBankOtherGroup(cards[..n], buckets, p, z);
      assert Where(p, cards[n].id) == Bank;
    }
  }

  // ---------- groupCards ----------

  /** The list grouping builds for bucket id `id`: empty for a bucket named "bank", else its group. */
  function BucketList(cards: seq<Card>, buckets: seq<Bucket>, p: Placements, id: string): seq<Card>
  {
    if id == Bank then [] else Group(cards, buckets, p, id)
  }

  /**
   * The per-bucket lists of grouping: one entry per bucket id, holding that
   * bucket's group, except that a bucket whose id is "bank" itself never
   * receives a card (such a card is already in the bank).
   */
  function BucketLists(cards: seq<Card>, buckets: seq<Bucket>, p: Placements): (r: map<string, seq<Card>>)
    ensures r.Keys == set b | b in buckets :: b.id
    ensures Bank in r ==> r[Bank] == []
  {
    map id | id in BucketIds(buckets) :: BucketList(cards, buckets, p, id)
  }

  /** A map with the keys and values of `BucketLists` is `BucketLists`. */
  lemma BucketListsByEntries(m: map<string, seq<Card>>, cards: seq<Card>, buckets: seq<Bucket>, p: Placements)
    requires Lists(m, cards, buckets, p)
    ensures m == BucketLists(cards, buckets, p)
  {
  }

  /** Grouping one more card appends it to the list of its destination, if that is a bucket. */
  lemma BucketListOfPrefix(cards: seq<Card>, buckets: seq<Bucket>, p: Placements, i: nat, id: string)
    requires i < |cards|
    ensures var d := Destination(buckets, p, cards[i]);
      BucketList(cards[..i + 1], buckets, p, id)
      == if d == id && d != Bank then BucketList(cards[..i], buckets, p, id) + [cards[i]] else BucketList(cards[..i], buckets, p, id)
  {
    GroupOfPrefix(cards, buckets, p, i, id);
  }

  /**
   * `groupCards`: the bank list is the bank group and each bucket id's list is
   * that bucket's group.
   */
  method GroupCards(step: SortingStep, p: Placements) returns (bank: seq<Card>, byBucket: map<string, seq<Card>>)
    ensures bank == Group(step.cards, step.buckets, p, Bank)
    ensures byBucket == BucketLists(step.cards, step.buckets, p)
  {
    var cards, buckets := step.cards, step.buckets;
    bank := [];
    byBucket := EmptyBucketLists(buckets);
    ListsOfNoCards(byBucket, cards, buckets, p);
    for i := 0 to |cards|
      invariant bank == Group(cards[..i], buckets, p, Bank)
      invariant Lists(byBucket, cards[..i], buckets, p)
    {
      GroupOfPrefix(cards, buckets, p, i, Bank);
      var bank', byBucket' := PlaceCard(bank, byBucket, cards[i], buckets, p);
      ListsAfterPlace(byBucket, byBucket', cards, i, buckets, p);
      bank, byBucket := bank', byBucket';
    }
    assert cards[..|cards|] == cards;
    BucketListsByEntries(byBucket, cards, buckets, p);
  }

  /** `m` has the keys and the values of `BucketLists(cards, buckets, p)`. */
  predicate Lists(m: map<string, seq<Card>>, cards: seq<Card>, buckets: seq<Bucket>, p: Placements)
  {
    && m.Keys == (set id | id in BucketIds(buckets))
    && forall id :: id in m ==> m[id] == BucketList(cards, buckets, p, id)
  }

  /** Before any card is placed every list is empty. */
  lemma ListsOfNoCards(m: map<string, seq<Card>>, cards: seq<Card>, buckets: seq<Bucket>, p: Placements)
    requires m.Keys == set id | id in BucketIds(buckets)
    requires forall id :: id in m ==> m[id] == []
    ensures Lists(m, cards[..0], buckets, p)
  {
    assert cards[..0] == [];
  }

  /** The body of the second loop of `groupCards`: one card joins the list of its destination. */
  method PlaceCard(bank: seq<Card>, byBucket: map<string, seq<Card>>, card: Card, buckets: seq<Bucket>, p: Placements)
    returns (bank': seq<Card>, byBucket': map<string, seq<Card>>)
    requires byBucket.Keys == set id | id in BucketIds(buckets)
    ensures bank' == bank + if Destination(buckets, p, card) == Bank then [card] else []
    ensures byBucket'.Keys == byBucket.Keys
    ensures forall id :: id in byBucket' ==>
      byBucket'[id] == if Destination(buckets, p, card) == id && id != Bank then byBucket[id] + [card] else byBucket[id]
  {
    bank', byBucket' := bank, byBucket;
    var where := Where(p, card.id);
    if where == Bank {
      bank' := bank + [card];
    } else if where in byBucket {
      byBucket' := byBucket[where := byBucket[where] + [card]];
    } else {
      bank' := bank + [card];  // the bucket was removed: fall back to the bank
    }
  }

  /** After `PlaceCard` on card `i` the lists are those of the first `i + 1` cards. */
  lemma ListsAfterPlace(m: map<string, seq<Card>>, m': map<string, seq<Card>>, cards: seq<Card>, i: nat, buckets: seq<Bucket>, p: Placements)
    requires i < |cards|
    requires Lists(m, cards[..i], buckets, p)
    requires m'.Keys == m.Keys
    requires forall id :: id in m' ==>
      m'[id] == if Destination(buckets, p, cards[i]) == id && id != Bank then m[id] + [cards[i]] else m[id]
    ensures Lists(m', cards[..i + 1], buckets, p)
  {
    forall id | id in m' ensures m'[id] == BucketList(cards[..i + 1], buckets, p, id) {
      BucketListOfPrefix(cards, buckets, p, i, id);
    }
  }

  /** The first loop of `groupCards`: an empty list for every bucket id. */
  method EmptyBucketLists(buckets: seq<Bucket>) returns (byBucket: map<string, seq<Card>>)
    ensures byBucket.Keys == set id | id in BucketIds(buckets)
    ensures forall id :: id in byBucket ==> byBucket[id] == []
  {
    byBucket := map[];
    for j := 0 to |buckets|
      invariant byBucket.Keys == set id | id in BucketIds(buckets)[..j]
      invariant forall id :: id in byBucket ==> byBucket[id] == []
    {
      assert BucketIds(buckets)[..j + 1] == BucketIds(buckets)[..j] + [buckets[j].id];
      byBucket := byBucket[buckets[j].id := []];
    }
    assert BucketIds(buckets)[..|buckets|] == BucketIds(buckets);
  }

  /** Each bucket id's list holds that bucket's group; the list of a bucket named "bank" is empty. */
  lemma BucketListsAt(cards: seq<Card>, buckets: seq<Bucket>, p: Placements, id: string)
    ensures id in BucketLists(cards, buckets, p) <==> id in BucketIds(buckets)
    ensures id in BucketIds(buckets) ==>
      BucketLists(cards, buckets, p)[id] == if id == Bank then [] else Group(cards, buckets, p, id)
  {
  }

  // ---------- group sizes ----------

  /** Number of times `x` occurs in `zs`. */
  function Occurrences(zs: seq<string>, x: string): nat
  {
    if zs == [] then 0 else (if zs[0] == x then 1 else 0) + Occurrences(zs[1..], x)
  }

  predicate NoDuplicates(zs: seq<string>)
  {
    forall i, j :: 0 <= i < j < |zs| ==> zs[i] != zs[j]
  }

  lemma {:induction false} OccursOnce(zs: seq<string>, x: string)
    requires NoDuplicates(zs) && x in zs
    ensures Occurrences(zs, x) == 1
  {
    if zs[0] == x {
      OccursNever(zs[1..], x);
    } else {
      OccursOnce(zs[1..], x);
    }
  }

  lemma {:induction false} OccursNever(zs: seq<string>, x: string)
    requires x !in zs
    ensures Occurrences(zs, x) == 0
  {
    if zs != [] {
      OccursNever(zs[1..], x);
    }
  }

  /** Sum of the sizes of the groups of the containers `zs`. */
  function GroupSizes(cards: seq<Card>, buckets: seq<Bucket>, p: Placements, zs: seq<ContainerId>): nat
  {
    if zs == [] then 0 else |Group(cards, buckets, p, zs[0])| + GroupSizes(cards, buckets, p, zs[1..])
  }

  lemma {:induction false} GroupSizesStep(cards: seq<Card>, buckets: seq<Bucket>, p: Placements, zs: seq<ContainerId>)
    requires cards != []
    ensures GroupSizes(cards, buckets, p, zs)
         == GroupSizes(cards[..|cards| - 1], buckets, p, zs) + Occurrences(zs, Destination(buckets, p, cards[|cards| - 1]))
  {
    if zs != [] {
      GroupSizesStep(cards, buckets, p, zs[1..]);
    }
  }

  /**
   * Partition by size: over any duplicate-free list of containers that names
   * the bank and every bucket id, the group sizes add up to the number of cards.
   */
  lemma {:induction false} GroupSizesSum(cards: seq<Card>, buckets: seq<Bucket>, p: Placements, zs: seq<ContainerId>)
    requires NoDuplicates(zs)
    requires Bank in zs && forall id :: id in BucketIds(buckets) ==> id in zs
    ensures GroupSizes(cards, buckets, p, zs) == |cards|
  {
    if cards == [] {
      GroupSizesOfNothing(buckets, p, zs);
    } else {
      var n := |cards| - 1;
      GroupSizesStep(cards, buckets, p, zs);
      GroupSizesSum(cards[..n], buckets, p, zs);
      OccursOnce(zs, Destination(buckets, p, cards[n]));
    }
  }

  lemma {:induction false} GroupSizesOfNothing(buckets: seq<Bucket>, p: Placements, zs: seq<ContainerId>)
    ensures GroupSizes([], buckets, p, zs) == 0
  {
    if zs != [] {
      GroupSizesOfNothing(buckets, p, zs[1..]);
    }
  }

  // ---------- cardCountInContainer ----------

  /** The keys of `p` whose entry is `z`. */
  function KeysIn(p: Placements, z: ContainerId): set<CardId>
  {
    set k | k in p && p[k] == z
  }

  /** `cardCountInContainer`: the number of placement entries naming `z`. */
  method CardCountInContainer(p: Placements, z: ContainerId) returns (count: nat)
    ensures count == |KeysIn(p, z)|
  {
    count := 0;
    var rest := p.Keys;
    while rest != {}
      invariant rest <= p.Keys
      invariant count == |set k | k in p.Keys - rest && p[k] == z|
      decreases rest
    {
      var k :| k in rest;
      ghost var done := set k' | k' in p.Keys - rest && p[k'] == z;
      if Where(p, k) == z {
        assert (set k' | k' in p.Keys - (rest - {k}) && p[k'] == z) == done + {k};
        count := count + 1;
      } else {
        assert (set k' | k' in p.Keys - (rest - {k}) && p[k'] == z) == done;
      }
      rest := rest - {k};
    }
    assert p.Keys - rest == p.Keys;
  }

  /** Sum of the counts of the containers `zs`. */
  function CountSum(p: Placements, zs: seq<ContainerId>): nat
  {
    if zs == [] then 0 else |KeysIn(p, zs[0])| + CountSum(p, zs[1..])
  }

  lemma {:induction false} CountSumRemove(p: Placements, k: CardId, zs: seq<ContainerId>)
    requires k in p
    ensures CountSum(p, zs) == CountSum(p - {k}, zs) + Occurrences(zs, p[k])
  {
    if zs != [] {
      CountSumRemove(p, k, zs[1..]);
      var z := zs[0];
      if p[k] == z {
        assert KeysIn(p, z) == KeysIn(p - {k}, z) + {k};
      } else {
        assert KeysIn(p, z) == KeysIn(p - {k}, z);
      }
    }
  }

  lemma {:induction false} CountSumOfNothing(zs: seq<ContainerId>)
    ensures CountSum(map[], zs) == 0
  {
    if zs != [] {
      assert KeysIn(map[], zs[0]) == {};
      CountSumOfNothing(zs[1..]);
    }
  }

  /**
   * Counting: over a duplicate-free list of containers that names every value
   * of `p`, the per-container counts add up to the number of entries.
   */
  lemma {:induction false} CountSumIsSize(p: Placements, zs: seq<ContainerId>)
    requires NoDuplicates(zs)
    requires forall k :: k in p ==> p[k] in zs
    ensures CountSum(p, zs) == |p|
    decreases |p|
  {
    if p == map[] {
      CountSumOfNothing(zs);
    } else {
      var k :| k in p;
      CountSumRemove(p, k, zs);
      assert |p - {k}| == |p| - 1;
      CountSumIsSize(p - {k}, zs);
      OccursOnce(zs, p[k]);
    }
  }

  /**
   * When the placement keys are exactly the card ids and every entry names the
   * bank or a bucket, the bank group is empty exactly when no entry names the
   * bank.
   */
  lemma BankEmptyIffNoBankEntry(cards: seq<Card>, buckets: seq<Bucket>, p: Placements)
    requires p.Keys == CardIds(cards)
    requires forall k :: k in p ==> p[k] == Bank || p[k] in BucketIds(buckets)
    ensures Group(cards, buckets, p, Bank) == [] <==> KeysIn(p, Bank) == {}
  {
    GroupEmptyIff(cards, buckets, p, Bank);
    if KeysIn(p, Bank) != {} {
      var k :| k in KeysIn(p, Bank);
      var c :| c in cards && c.id == k;
      var i :| 0 <= i < |cards| && cards[i] == c;
      assert Destination(buckets, p, cards[i]) == Bank;
    }
    if Group(cards, buckets, p, Bank) != [] {
      var i :| 0 <= i < |cards| && Destination(buckets, p, cards[i]) == Bank;
      assert cards[i].id in CardIds(cards);
      assert cards[i].id in KeysIn(p, Bank);
    }
  }

  /**
   * Without those conditions the two differ: a card placed in a bucket that
   * the exercise no longer has is in the bank group, yet no entry names the bank.
   */
  lemma RemovedBucketCardInBankGroup()
    ensures var cards, p := [Card("A", "a")], map["A" := "X"];
      Group(cards, [], p, Bank) == cards && KeysIn(p, Bank) == {}
  {
    var cards, p := [Card("A", "a")], map["A" := "X"];
    assert cards[..0] == [];
    assert p.Keys == {"A"} && p["A"] != Bank;
  }
}
