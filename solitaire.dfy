/** The Klondike engine: the deck and its shuffle, the deal into seven piles,
    the stock and waste, the foundation and tableau rules, moving a selected
    run, automatic placement on a foundation, the win predicate and the clock. */
module Solitaire {
  import opened Wrappers
  import opened Numerals

  datatype Suit = Hearts | Diamonds | Clubs | Spades

  datatype Card = Card(suit: Suit, value: int, faceUp: bool)

  datatype GameState = Playing | Won

  const Suits: seq<Suit> := [Hearts, Diamonds, Clubs, Spades]

  /** Hearts and diamonds are red; clubs and spades are black. */
  predicate IsRed(s: Suit)
  {
    s == Hearts || s == Diamonds
  }

  // ---------------------------------------------------------------- the deck

  /** The unshuffled deck: the suits in order, values 1 to 13 within each suit,
      every card face down. */
  function StandardDeck(): (d: seq<Card>)
    ensures |d| == 52
  {
    seq(52, i requires 0 <= i < 52 => Card(Suits[i / 13], i % 13 + 1, false))
  }

  /** The standard deck holds every face-down card of value 1..13 of every suit,
      and each exactly once. */
  lemma StandardDeckContents()
    ensures forall c :: c in StandardDeck() <==> 1 <= c.value <= 13 && !c.faceUp
    ensures forall i, j :: 0 <= i < j < 52 ==> StandardDeck()[i] != StandardDeck()[j]
  {
    var d := StandardDeck();
    forall c: Card | 1 <= c.value <= 13 && !c.faceUp ensures c in d {
      var s := match c.suit case Hearts => 0 case Diamonds => 1 case Clubs => 2 case Spades => 3;
      var i := 13 * s + c.value - 1;
      assert i / 13 == s && i % 13 == c.value - 1;
      assert d[i] == c;
    }
    forall i, j | 0 <= i < j < 52 ensures d[i] != d[j] {
      if i / 13 == j / 13 {
        assert i % 13 != j % 13;
      } else {
        assert Suits[i / 13] != Suits[j / 13];
      }
    }
  }

  /** The deck built suit by suit, value by value, as the source's push loop does. */
  method CreateDeck() returns (deck: seq<Card>)
    ensures deck == StandardDeck()
  {
    deck := [];
    for s := 0 to 4
      invariant |deck| == 13 * s
      invariant forall i :: 0 <= i < |deck| ==> deck[i] == StandardDeck()[i]
    {
      for value := 1 to 14
        invariant |deck| == 13 * s + value - 1
        invariant forall i :: 0 <= i < |deck| ==> deck[i] == StandardDeck()[i]
      {
        assert (13 * s + value - 1) / 13 == s && (13 * s + value - 1) % 13 == value - 1;
        deck := deck + [Card(Suits[s], value, false)];
      }
    }
  }

  /** The Fisher-Yates shuffle on a copy of the deck: for i from the last index
      down to 1, swap position i with position `draws[i]`, which the random
      source picks in 0..i. The result is a permutation of the input. */
  method ShuffleDeck(deck: seq<Card>, draws: seq<int>) returns (shuffled: seq<Card>)
    requires |draws| == |deck|
    requires forall i :: 0 < i < |deck| ==> 0 <= draws[i] <= i
    ensures |shuffled| == |deck|
    ensures multiset(shuffled) == multiset(deck)
  {
    var a := new Card[|deck|](k requires 0 <= k < |deck| => deck[k]);
    assert a[..] == deck;
    var i := a.Length - 1;
    while i > 0
      invariant -1 <= i < a.Length
      invariant multiset(a[..]) == multiset(deck)
      decreases i
    {
      var j := draws[i];
      a[i], a[j] := a[j], a[i];
      i := i - 1;
    }
    shuffled := a[..];
  }

  /** A shuffled deck: 52 cards, the standard deck's cards in some order. */
  predicate IsShuffledDeck(deck: seq<Card>)
  {
    |deck| == 52 && multiset(deck) == multiset(StandardDeck())
  }

  // ---------------------------------------------------------------- the deal

  /** The deck index at which row `r` of the deal starts: row r deals one card to
      each of the piles r..6. */
  function RowStart(r: nat): nat
    requires r <= 7
  {
    if r == 0 then 0 else RowStart(r - 1) + 8 - r
  }

  lemma RowStartTable()
    ensures RowStart(0) == 0 && RowStart(1) == 7 && RowStart(2) == 13 && RowStart(3) == 18
    ensures RowStart(4) == 22 && RowStart(5) == 25 && RowStart(6) == 27 && RowStart(7) == 28
  {
  }

  lemma {:induction false} RowStartMono(a: nat, b: nat)
    requires a <= b <= 7
    ensures RowStart(a) + (b - a) <= RowStart(b)
    decreases b - a
  {
    if a < b {
      RowStartMono(a, b - 1);
    }
  }

  /** The deck index of the card dealt in row `r` to pile `j`: one of the first 28. */
  function DealIndex(r: nat, j: nat): (k: nat)
    requires r <= j < 7
    ensures RowStart(r) <= k < RowStart(r + 1) && k < 28
  {
    RowStartTable();
    RowStartMono(r + 1, 7);
    RowStart(r) + j - r
  }

  /** Distinct (row, pile) slots take distinct deck positions. */
  lemma DealIndexInjective(r1: nat, j1: nat, r2: nat, j2: nat)
    requires r1 <= j1 < 7 && r2 <= j2 < 7 && DealIndex(r1, j1) == DealIndex(r2, j2)
    ensures r1 == r2 && j1 == j2
  {
    if r1 < r2 {
      RowStartMono(r1 + 1, r2);
    } else if r2 < r1 {
      RowStartMono(r2 + 1, r1);
    }
  }

  /** The (row, pile) slot that takes deck position `k`, so each of the first
      28 positions is dealt. */
  function SlotOf(k: nat): (s: (nat, nat))
    requires k < 28
    ensures s.0 <= s.1 < 7 && DealIndex(s.0, s.1) == k
  {
    RowStartTable();
    if k < 7 then (0, k)
    else if k < 13 then (1, k - 6)
    else if k < 18 then (2, k - 11)
    else if k < 22 then (3, k - 15)
    else if k < 25 then (4, k - 18)
    else if k < 27 then (5, k - 20)
    else (6, 6)
  }

  /** `piles` and `rest` are what the deal makes of `deck`: pile j holds j + 1
      cards, the r-th of them the card at `DealIndex(r, j)`, face up exactly
      when it is the last; the stock is everything after the 28 dealt cards. */
  ghost predicate DealtFrom(deck: seq<Card>, piles: seq<seq<Card>>, rest: seq<Card>)
  {
    && |deck| >= 28
    && |piles| == 7
    && (forall j :: 0 <= j < 7 ==> |piles[j]| == j + 1)
    && (forall j, r :: 0 <= r <= j < 7 ==> piles[j][r] == deck[DealIndex(r, j)].(faceUp := r == j))
    && rest == deck[28..]
  }

  /** The triangular deal: row i puts one card on each pile i..6, face up only
      on pile i. */
  method Deal(deck: seq<Card>) returns (piles: seq<seq<Card>>, rest: seq<Card>)
    requires |deck| == 52
    ensures DealtFrom(deck, piles, rest)
    ensures |rest| == 24
    ensures forall j, r :: 0 <= j < 7 && 0 <= r < |piles[j]| ==> (piles[j][r].faceUp <==> r == |piles[j]| - 1)
  {
    RowStartTable();
    piles := [[], [], [], [], [], [], []];
    var cardIndex := 0;
    for i := 0 to 7
      invariant cardIndex == RowStart(i)
      invariant |piles| == 7
      invariant forall j :: 0 <= j < 7 ==> |piles[j]| == if j < i then j + 1 else i
      invariant forall j, r :: 0 <= j < 7 && 0 <= r < |piles[j]| ==> piles[j][r] == deck[DealIndex(r, j)].(faceUp := r == j)
    {
      RowStartMono(i + 1, 7);
      for j := i to 7
        invariant cardIndex == RowStart(i) + j - i
        invariant |piles| == 7
        invariant forall j' :: 0 <= j' < 7 ==> |piles[j']| == if j' < i then j' + 1 else if j' < j then i + 1 else i
        invariant forall j', r :: 0 <= j' < 7 && 0 <= r < |piles[j']| ==> piles[j'][r] == deck[DealIndex(r, j')].(faceUp := r == j')
      {
        var card := deck[cardIndex].(faceUp := i == j);
        cardIndex := cardIndex + 1;
        piles := piles[j := piles[j] + [card]];
      }
    }
    rest := deck[cardIndex..];
  }

  // ---------------------------------------------------------------- sequences of cards

  /** Every card of `cs` with its face set to `up`. */
  function SetFace(cs: seq<Card>, up: bool): (r: seq<Card>)
    ensures |r| == |cs|
    ensures forall i :: 0 <= i < |cs| ==> r[i] == cs[i].(faceUp := up)
  {
    seq(|cs|, i requires 0 <= i < |cs| => cs[i].(faceUp := up))
  }

  function Reverse(s: seq<Card>): (r: seq<Card>)
    ensures |r| == |s|
    ensures forall i :: 0 <= i < |s| ==> r[i] == s[|s| - 1 - i]
  {
    seq(|s|, i requires 0 <= i < |s| => s[|s| - 1 - i])
  }

  /** The cards of `cs` as a multiset, faces ignored. */
  function Bag(cs: seq<Card>): multiset<Card>
  {
    multiset(SetFace(cs, false))
  }

  /** The cards of all the piles, faces ignored. */
  function BagAll(ps: seq<seq<Card>>): multiset<Card>
  {
    if ps == [] then multiset{} else BagAll(ps[..|ps| - 1]) + Bag(ps[|ps| - 1])
  }

  lemma BagConcat(a: seq<Card>, b: seq<Card>)
    ensures Bag(a + b) == Bag(a) + Bag(b)
  {
    assert SetFace(a + b, false) == SetFace(a, false) + SetFace(b, false);
  }

  lemma Swap(a: multiset<Card>, b: multiset<Card>, c: multiset<Card>)
    ensures a + b + c == a + c + b
  {
  }

  lemma {:induction false} BagAllUpdate(ps: seq<seq<Card>>, i: int, x: seq<Card>)
    requires 0 <= i < |ps|
    ensures BagAll(ps[i := x]) + Bag(ps[i]) == BagAll(ps) + Bag(x)
    decreases |ps|
  {
    var n := |ps| - 1;
    var qs := ps[i := x];
    if i == n {
      assert qs[..n] == ps[..n];
      calc {
        BagAll(qs) + Bag(ps[i]);
        BagAll(ps[..n]) + Bag(x) + Bag(ps[n]);
        { Swap(BagAll(ps[..n]), Bag(x), Bag(ps[n])); }
        BagAll(ps[..n]) + Bag(ps[n]) + Bag(x);
        BagAll(ps) + Bag(x);
      }
    } else {
      assert qs[..n] == ps[..n][i := x];
      assert qs[n] == ps[n];
      calc {
        BagAll(qs) + Bag(ps[i]);
        BagAll(qs[..n]) + Bag(ps[n]) + Bag(ps[i]);
        { Swap(BagAll(qs[..n]), Bag(ps[n]), Bag(ps[i])); }
        BagAll(qs[..n]) + Bag(ps[i]) + Bag(ps[n]);
        { BagAllUpdate(ps[..n], i, x); }
        BagAll(ps[..n]) + Bag(x) + Bag(ps[n]);
        { Swap(BagAll(ps[..n]), Bag(x), Bag(ps[n])); }
        BagAll(ps[..n]) + Bag(ps[n]) + Bag(x);
        BagAll(ps) + Bag(x);
      }
    }
  }

  lemma Cancel(a: multiset<Card>, b: multiset<Card>, c: multiset<Card>)
    requires a + c == b + c
    ensures a == b
  {
    assert forall x :: a[x] == (a + c)[x] - c[x];
  }

  // ---------------------------------------------------------------- stock and waste

  /** A click on the stock. A non-empty stock moves its last card, turned face
      up, onto the end of the waste; an empty stock takes back the waste,
      reversed and face down, and the waste empties. */
  function Draw(stock: seq<Card>, waste: seq<Card>): (r: (seq<Card>, seq<Card>))
    ensures |r.0| + |r.1| == |stock| + |waste|
    ensures |stock| > 0 ==> |r.0| == |stock| - 1 && r.1[..|waste|] == waste && r.1[|waste|].faceUp
    ensures |stock| == 0 ==> r.1 == [] && forall i :: 0 <= i < |r.0| ==> !r.0[i].faceUp
  {
    if |stock| == 0 then (Reverse(SetFace(waste, false)), [])
    else (stock[..|stock| - 1], waste + [stock[|stock| - 1].(faceUp := true)])
  }

  /** A draw keeps every card of the stock and the waste, faces aside. */
  lemma DrawKeepsCards(stock: seq<Card>, waste: seq<Card>)
    ensures var r := Draw(stock, waste); Bag(r.0) + Bag(r.1) == Bag(stock) + Bag(waste)
  {
    if |stock| == 0 {
      assert SetFace(Reverse(SetFace(waste, false)), false) == Reverse(SetFace(waste, false));
      ReverseMultiset(SetFace(waste, false));
      assert Bag([]) == multiset{};
    } else {
      var n := |stock| - 1;
      var card := stock[n].(faceUp := true);
      BagConcat(stock[..n], [stock[n]]);
      BagConcat(waste, [card]);
      assert stock[..n] + [stock[n]] == stock;
      assert SetFace([card], false) == SetFace([stock[n]], false);
    }
  }

  lemma {:induction false} ReverseMultiset(s: seq<Card>)
    ensures multiset(Reverse(s)) == multiset(s)
    decreases |s|
  {
    if s != [] {
      ReverseMultiset(s[1..]);
      assert Reverse(s) == Reverse(s[1..]) + [s[0]];
      assert s == [s[0]] + s[1..];
    }
  }

  /** `n` clicks on the stock in a row. */
  function DrawTimes(n: nat, stock: seq<Card>, waste: seq<Card>): (seq<Card>, seq<Card>)
  {
    if n == 0 then (stock, waste)
    else
      var p := DrawTimes(n - 1, stock, waste);
      Draw(p.0, p.1)
  }

  lemma SetFaceConcat(a: seq<Card>, b: seq<Card>, up: bool)
    ensures SetFace(a + b, up) == SetFace(a, up) + SetFace(b, up)
  {
  }

  lemma DrawFromNonEmpty(stock: seq<Card>, waste: seq<Card>)
    requires |stock| > 0
    ensures Draw(stock, waste) == (stock[..|stock| - 1], waste + [stock[|stock| - 1].(faceUp := true)])
  {
  }

  lemma ReverseSnoc(s: seq<Card>)
    requires |s| > 0
    ensures Reverse(s) == Reverse(s[1..]) + [s[0]]
  {
  }

  /** The last k stock cards, reversed and face up, extend those of k - 1 by one card. */
  lemma RunSnoc(stock: seq<Card>, k: nat)
    requires 0 < k <= |stock|
    ensures var n := |stock|;
      SetFace(Reverse(stock[n - k..]), true) == SetFace(Reverse(stock[n - k + 1..]), true) + [stock[n - k].(faceUp := true)]
  {
    var n := |stock|;
    var tail := stock[n - k..];
    ReverseSnoc(tail);
    assert tail[1..] == stock[n - k + 1..] && tail[0] == stock[n - k];
    SetFaceConcat(Reverse(stock[n - k + 1..]), [stock[n - k]], true);
  }

  /** `k` draws take the last k stock cards, in reverse order and face up, onto the waste. */
  lemma {:induction false} DrawRun(k: nat, stock: seq<Card>, waste: seq<Card>)
    requires k <= |stock|
    ensures DrawTimes(k, stock, waste) == (stock[..|stock| - k], waste + SetFace(Reverse(stock[|stock| - k..]), true))
  {
    var n := |stock|;
    if k == 0 {
      assert SetFace(Reverse(stock[n..]), true) == [];
      assert waste + [] == waste;
      assert stock[..n] == stock;
    } else {
      DrawRun(k - 1, stock, waste);
      var s1 := stock[..n - k + 1];
      var a := SetFace(Reverse(stock[n - k + 1..]), true);
      var c := stock[n - k].(faceUp := true);
      assert DrawTimes(k, stock, waste) == Draw(s1, waste + a);
      DrawFromNonEmpty(s1, waste + a);
      assert s1[..|s1| - 1] == stock[..n - k];
      assert s1[|s1| - 1] == stock[n - k];
      assert Draw(s1, waste + a) == (stock[..n - k], (waste + a) + [c]);
      RunSnoc(stock, k);
      assert (waste + a) + [c] == waste + SetFace(Reverse(stock[n - k..]), true);
    }
  }

  lemma RecycleUndoes(stock: seq<Card>)
    requires forall i :: 0 <= i < |stock| ==> !stock[i].faceUp
    ensures Reverse(SetFace(SetFace(Reverse(stock), true), false)) == stock
  {
  }

  /** Drawing a face-down stock to the end and clicking once more on the empty
      stock gives back the stock in its original order, with an empty waste. */
  lemma DrawAllThenRecycle(stock: seq<Card>)
    requires forall i :: 0 <= i < |stock| ==> !stock[i].faceUp
    ensures DrawTimes(|stock| + 1, stock, []) == (stock, [])
  {
    var n := |stock|;
    DrawRun(n, stock, []);
    var p := DrawTimes(n, stock, []);
    var w := SetFace(Reverse(stock), true);
    assert stock[n - n..] == stock;
    assert p.0 == [];
    assert p.1 == w;
    assert DrawTimes(n + 1, stock, []) == Draw(p.0, p.1);
    RecycleUndoes(stock);
  }


  // ---------------------------------------------------------------- legality

  /** An empty foundation takes only an ace, of any suit; otherwise the card must
      be of the top card's suit and one higher. */
  predicate CanPlaceOnFoundation(f: seq<Card>, card: Card)
  {
    if |f| == 0 then card.value == 1
    else card.suit == f[|f| - 1].suit && card.value == f[|f| - 1].value + 1
  }

  /** An empty pile takes only a king; otherwise the card must be of the other
      colour than the top card and one lower. */
  predicate CanPlaceOnTableau(pile: seq<Card>, card: Card)
  {
    if |pile| == 0 then card.value == 13
    else IsRed(card.suit) != IsRed(pile[|pile| - 1].suit) && card.value == pile[|pile| - 1].value - 1
  }

  /** A built foundation: ace, two, three, ... of one suit. */
  ghost predicate Ascending(f: seq<Card>)
  {
    forall k :: 0 <= k < |f| ==> f[k].value == k + 1 && f[k].suit == f[0].suit
  }

  /** On a built foundation, a card is accepted exactly when the foundation stays built. */
  lemma FoundationGrows(f: seq<Card>, card: Card)
    requires Ascending(f)
    ensures CanPlaceOnFoundation(f, card) <==> Ascending(f + [card])
  {
    if Ascending(f + [card]) {
      assert (f + [card])[|f|] == card;
    }
    if CanPlaceOnFoundation(f, card) {
      forall k | 0 <= k < |f| + 1 ensures (f + [card])[k].value == k + 1 && (f + [card])[k].suit == (f + [card])[0].suit {
      }
    }
  }

  /** A run built down in alternating colours. */
  ghost predicate Built(run: seq<Card>)
  {
    forall k :: 0 <= k < |run| - 1 ==> IsRed(run[k].suit) != IsRed(run[k + 1].suit) && run[k + 1].value == run[k].value - 1
  }

  /** On a non-empty pile, a built run is accepted exactly when the pile's top card
      and the run form one built run. */
  lemma TableauGrows(pile: seq<Card>, run: seq<Card>)
    requires |pile| > 0 && |run| > 0 && Built(run)
    ensures CanPlaceOnTableau(pile, run[0]) <==> Built([pile[|pile| - 1]] + run)
  {
    var t := [pile[|pile| - 1]] + run;
    if CanPlaceOnTableau(pile, run[0]) {
      forall k | 0 <= k < |t| - 1 ensures IsRed(t[k].suit) != IsRed(t[k + 1].suit) && t[k + 1].value == t[k].value - 1 {
        if k > 0 {
          assert t[k] == run[k - 1] && t[k + 1] == run[k];
        }
      }
    }
    if Built(t) {
      assert t[0] == pile[|pile| - 1] && t[1] == run[0];
    }
  }

  /** The win predicate: every foundation holds 13 cards. */
  predicate AllComplete(foundations: seq<seq<Card>>)
  {
    forall i :: 0 <= i < |foundations| ==> |foundations[i]| == 13
  }

  // ---------------------------------------------------------------- moves

  /** Where a click lands or a selection was taken from. */
  datatype Place = WastePile | FoundationPile(i: int) | TableauPile(i: int)

  /** Where a move puts its cards. */
  datatype Target = ToFoundation(i: int) | ToTableau(i: int)

  /** The selected cards and the place they were taken from. */
  datatype Selection = Selection(source: Place, cards: seq<Card>)

  /** The three kinds of pile a move touches. */
  datatype Layout = Layout(waste: seq<Card>, foundations: seq<seq<Card>>, tableau: seq<seq<Card>>)

  predicate LayoutOk(l: Layout)
  {
    |l.foundations| == 4 && |l.tableau| == 7
  }

  predicate PlaceOk(p: Place)
  {
    match p
    case WastePile => true
    case FoundationPile(i) => 0 <= i < 4
    case TableauPile(i) => 0 <= i < 7
  }

  predicate TargetOk(t: Target)
  {
    match t
    case ToFoundation(i) => 0 <= i < 4
    case ToTableau(i) => 0 <= i < 7
  }

  /** Slicing off the last k elements with a negative end index: they are dropped, and
      nothing left when k is 0 (an end of -0 is 0) or at least the length. */
  function DropLast(s: seq<Card>, k: nat): (r: seq<Card>)
    ensures 0 < k <= |s| ==> r == s[..|s| - k] && r + s[|s| - k..] == s
    ensures k == 0 || k >= |s| ==> r == []
  {
    if k == 0 || k >= |s| then [] else s[..|s| - k]
  }

  /** A face-down top card turned face up. */
  function TurnUpLast(pile: seq<Card>): (r: seq<Card>)
    ensures |r| == |pile| && forall i :: 0 <= i < |pile| - 1 ==> r[i] == pile[i]
    ensures |r| > 0 ==> r[|r| - 1] == pile[|pile| - 1].(faceUp := true)
  {
    if |pile| > 0 && !pile[|pile| - 1].faceUp then pile[|pile| - 1 := pile[|pile| - 1].(faceUp := true)] else pile
  }

  /** The source pile with the moved cards taken off its end (one card from the
      waste or a foundation, all of them from a tableau pile, whose new top then
      turns face up). */
  function Removed(l: Layout, from: Selection): Layout
    requires LayoutOk(l) && PlaceOk(from.source)
  {
    match from.source
    case WastePile => l.(waste := DropLast(l.waste, 1))
    case FoundationPile(p) => l.(foundations := l.foundations[p := DropLast(l.foundations[p], 1)])
    case TableauPile(p) => l.(tableau := l.tableau[p := TurnUpLast(DropLast(l.tableau[p], |from.cards|))])
  }

  /** The target pile with the cards appended. */
  function Added(l: Layout, cards: seq<Card>, to: Target): Layout
    requires LayoutOk(l) && TargetOk(to)
  {
    match to
    case ToFoundation(i) => l.(foundations := l.foundations[i := l.foundations[i] + cards])
    case ToTableau(i) => l.(tableau := l.tableau[i := l.tableau[i] + cards])
  }

  /** A move: the cards taken off their source, then put on the target. */
  function Moved(l: Layout, from: Selection, to: Target): (r: Layout)
    requires LayoutOk(l) && PlaceOk(from.source) && TargetOk(to)
    ensures LayoutOk(r)
  {
    Added(Removed(l, from), from.cards, to)
  }

  /** A move exactly as the component writes it: the destination list is built
      from the piles as they were before the move, so when source and target are
      of the same kind the removal is lost; only the face-up turn of the newly
      exposed tableau card survives, through the shared card object. */
  function MovedAsWritten(l: Layout, from: Selection, to: Target): (r: Layout)
    requires LayoutOk(l) && PlaceOk(from.source) && TargetOk(to)
    ensures LayoutOk(r)
    ensures from.source.TableauPile? && to.ToTableau? && from.source.i != to.i ==>
      var p := from.source.i; var n := |l.tableau[p]| - |from.cards|;
      && |r.tableau[p]| == |l.tableau[p]|
      && (forall k :: 0 <= k < |l.tableau[p]| && k != n - 1 ==> r.tableau[p][k] == l.tableau[p][k])
      && (0 < |from.cards| < |l.tableau[p]| ==> r.tableau[p][n - 1] == l.tableau[p][n - 1].(faceUp := true))
      && (|from.cards| == 0 || |from.cards| >= |l.tableau[p]| ==> r.tableau[p] == l.tableau[p])
      && r.tableau[to.i] == l.tableau[to.i] + from.cards
      && (forall k :: 0 <= k < 7 && k != p && k != to.i ==> r.tableau[k] == l.tableau[k])
      && r.waste == l.waste && r.foundations == l.foundations
    ensures from.source.FoundationPile? && to.ToFoundation? ==>
      && r.foundations[to.i] == l.foundations[to.i] + from.cards
      && (forall k :: 0 <= k < 4 && k != to.i ==> r.foundations[k] == l.foundations[k])
      && r.waste == l.waste && r.tableau == l.tableau
    ensures !(from.source.TableauPile? && to.ToTableau?) && !(from.source.FoundationPile? && to.ToFoundation?) ==>
      r == Moved(l, from, to)
  {
    if from.source.TableauPile? && to.ToTableau? then
      var p := from.source.i;
      var rest := DropLast(l.tableau[p], |from.cards|);
      var seen := if |rest| > 0 && !rest[|rest| - 1].faceUp
        then l.(tableau := l.tableau[p := l.tableau[p][|rest| - 1 := rest[|rest| - 1].(faceUp := true)]])
        else l;
      l.(tableau := Added(seen, from.cards, to).tableau)
    else if from.source.FoundationPile? && to.ToFoundation? then
      l.(foundations := Added(l, from.cards, to).foundations)
    else
      Moved(l, from, to)
  }

  /** The selection is what lies at the end of its source pile. */
  predicate InPlace(l: Layout, from: Selection)
    requires LayoutOk(l) && PlaceOk(from.source)
  {
    match from.source
    case WastePile => |l.waste| > 0 && from.cards == [l.waste[|l.waste| - 1]]
    case FoundationPile(p) => |l.foundations[p]| > 0 && from.cards == [l.foundations[p][|l.foundations[p]| - 1]]
    case TableauPile(p) =>
      1 <= |from.cards| <= |l.tableau[p]| && from.cards == l.tableau[p][|l.tableau[p]| - |from.cards|..]
  }

  /** Every card on the table except the stock, faces ignored. */
  function AllBag(l: Layout): multiset<Card>
  {
    Bag(l.waste) + BagAll(l.foundations) + BagAll(l.tableau)
  }

  lemma TurnUpBag(pile: seq<Card>)
    ensures Bag(TurnUpLast(pile)) == Bag(pile)
  {
    assert SetFace(TurnUpLast(pile), false) == SetFace(pile, false);
  }

  /** Taking the last cards off pile `i` of `ps`. */
  lemma PileRemoveBag(ps: seq<seq<Card>>, i: int, rest: seq<Card>, kept: seq<Card>, cards: seq<Card>)
    requires 0 <= i < |ps| && rest + cards == ps[i] && Bag(kept) == Bag(rest)
    ensures BagAll(ps[i := kept]) + Bag(cards) == BagAll(ps)
  {
    BagConcat(rest, cards);
    BagAllUpdate(ps, i, kept);
    Cancel(BagAll(ps[i := kept]) + Bag(cards), BagAll(ps), Bag(kept));
  }

  lemma RemovedBag(l: Layout, from: Selection)
    requires LayoutOk(l) && PlaceOk(from.source) && InPlace(l, from)
    ensures AllBag(Removed(l, from)) + Bag(from.cards) == AllBag(l)
  {
    match from.source {
      case WastePile => RemovedWasteBag(l, from);
      case FoundationPile(p) => RemovedFoundationBag(l, from);
      case TableauPile(p) => RemovedTableauBag(l, from);
    }
  }

  lemma RemovedWasteBag(l: Layout, from: Selection)
    requires LayoutOk(l) && from.source.WastePile? && InPlace(l, from)
    ensures AllBag(Removed(l, from)) + Bag(from.cards) == AllBag(l)
  {
    var w := l.waste;
    assert DropLast(w, 1) + from.cards == w;
    BagConcat(DropLast(w, 1), from.cards);
    assert AllBag(Removed(l, from)) == Bag(DropLast(w, 1)) + BagAll(l.foundations) + BagAll(l.tableau);
  }

  lemma RemovedFoundationBag(l: Layout, from: Selection)
    requires LayoutOk(l) && from.source.FoundationPile? && PlaceOk(from.source) && InPlace(l, from)
    ensures AllBag(Removed(l, from)) + Bag(from.cards) == AllBag(l)
  {
    var p := from.source.i;
    var f := l.foundations[p];
    assert DropLast(f, 1) + from.cards == f;
    PileRemoveBag(l.foundations, p, DropLast(f, 1), DropLast(f, 1), from.cards);
    assert AllBag(Removed(l, from)) == Bag(l.waste) + BagAll(l.foundations[p := DropLast(f, 1)]) + BagAll(l.tableau);
  }

  lemma RemovedTableauBag(l: Layout, from: Selection)
    requires LayoutOk(l) && from.source.TableauPile? && PlaceOk(from.source) && InPlace(l, from)
    ensures AllBag(Removed(l, from)) + Bag(from.cards) == AllBag(l)
  {
    var p := from.source.i;
    var t := l.tableau[p];
    var rest := DropLast(t, |from.cards|);
    assert rest + from.cards == t;
    TurnUpBag(rest);
    PileRemoveBag(l.tableau, p, rest, TurnUpLast(rest), from.cards);
    assert AllBag(Removed(l, from)) == Bag(l.waste) + BagAll(l.foundations) + BagAll(l.tableau[p := TurnUpLast(rest)]);
  }

  /** Appending cards to pile `i` of `ps`. */
  lemma PileAddBag(ps: seq<seq<Card>>, i: int, cards: seq<Card>)
    requires 0 <= i < |ps|
    ensures BagAll(ps[i := ps[i] + cards]) == BagAll(ps) + Bag(cards)
  {
    BagConcat(ps[i], cards);
    BagAllUpdate(ps, i, ps[i] + cards);
    Cancel(BagAll(ps[i := ps[i] + cards]), BagAll(ps) + Bag(cards), Bag(ps[i]));
  }

  lemma AddedBag(l: Layout, cards: seq<Card>, to: Target)
    requires LayoutOk(l) && TargetOk(to)
    ensures AllBag(Added(l, cards, to)) == AllBag(l) + Bag(cards)
  {
    match to {
      case ToFoundation(i) =>
        PileAddBag(l.foundations, i, cards);
        assert AllBag(Added(l, cards, to)) == Bag(l.waste) + BagAll(l.foundations[i := l.foundations[i] + cards]) + BagAll(l.tableau);
      case ToTableau(i) =>
        PileAddBag(l.tableau, i, cards);
        assert AllBag(Added(l, cards, to)) == Bag(l.waste) + BagAll(l.foundations) + BagAll(l.tableau[i := l.tableau[i] + cards]);
    }
  }

  /** A move of cards that lie at the end of their source keeps every card on
      the table exactly once. */
  lemma MoveConserves(l: Layout, from: Selection, to: Target)
    requires LayoutOk(l) && PlaceOk(from.source) && TargetOk(to) && InPlace(l, from)
    ensures AllBag(Moved(l, from, to)) == AllBag(l)
  {
    RemovedBag(l, from);
    AddedBag(Removed(l, from), from.cards, to);
  }

  /** A move puts the cards on the end of the target pile. */
  lemma MovedTarget(l: Layout, from: Selection, to: Target)
    requires LayoutOk(l) && PlaceOk(from.source) && TargetOk(to)
    ensures to.ToTableau? ==> var t := Moved(l, from, to).tableau[to.i];
      |t| >= |from.cards| && t[|t| - |from.cards|..] == from.cards
    ensures to.ToFoundation? ==> var f := Moved(l, from, to).foundations[to.i];
      |f| >= |from.cards| && f[|f| - |from.cards|..] == from.cards
    ensures to.ToTableau? && from.source != TableauPile(to.i) ==>
      Moved(l, from, to).tableau[to.i] == l.tableau[to.i] + from.cards
    ensures to.ToFoundation? && from.source != FoundationPile(to.i) ==>
      Moved(l, from, to).foundations[to.i] == l.foundations[to.i] + from.cards
  {
  }

  /** A move touches only its source and its target: every other pile and
      foundation, and the waste unless it is the source, stay as they were; a
      waste or foundation source loses exactly its top card. */
  lemma MovedFrame(l: Layout, from: Selection, to: Target)
    requires LayoutOk(l) && PlaceOk(from.source) && TargetOk(to)
    ensures var m := Moved(l, from, to);
      && (forall k :: 0 <= k < 7 && from.source != TableauPile(k) && to != ToTableau(k) ==> m.tableau[k] == l.tableau[k])
      && (forall k :: 0 <= k < 4 && from.source != FoundationPile(k) && to != ToFoundation(k) ==>
            m.foundations[k] == l.foundations[k])
      && (!from.source.WastePile? ==> m.waste == l.waste)
    ensures InPlace(l, from) && from.source.WastePile? ==> Moved(l, from, to).waste + from.cards == l.waste
    ensures InPlace(l, from) && from.source.FoundationPile? && to != ToFoundation(from.source.i) ==>
      Moved(l, from, to).foundations[from.source.i] + from.cards == l.foundations[from.source.i]
  {
  }

  /** A move from a tableau pile leaves that pile's remaining cards in place, with
      the new top card face up. */
  lemma MovedSource(l: Layout, from: Selection, to: Target)
    requires LayoutOk(l) && PlaceOk(from.source) && TargetOk(to) && InPlace(l, from)
    requires from.source.TableauPile? && to != ToTableau(from.source.i)
    ensures var p := from.source.i; var n := |l.tableau[p]| - |from.cards|;
      var t := Moved(l, from, to).tableau[p];
      && |t| == n
      && (forall k :: 0 <= k < n - 1 ==> t[k] == l.tableau[p][k])
      && (n > 0 ==> t[n - 1] == l.tableau[p][n - 1].(faceUp := true))
  {
  }

  /** The source as written duplicates the cards of a legal tableau-to-tableau
      move: a king moved from pile 0 to the empty pile 1 stays on pile 0 too,
      where the corrected move leaves pile 0 empty. */
  lemma SameKindMoveDuplicates()
    ensures var king := Card(Spades, 13, true);
      var l := Layout([], [[], [], [], []], [[king], [], [], [], [], [], []]);
      var sel := Selection(TableauPile(0), [king]);
      && InPlace(l, sel) && CanPlaceOnTableau(l.tableau[1], king)
      && MovedAsWritten(l, sel, ToTableau(1)).tableau[0] == [king]
      && MovedAsWritten(l, sel, ToTableau(1)).tableau[1] == [king]
      && Moved(l, sel, ToTableau(1)).tableau[0] == []
      && Moved(l, sel, ToTableau(1)).tableau[1] == [king]
  {
    var king := Card(Spades, 13, true);
    var l := Layout([], [[], [], [], []], [[king], [], [], [], [], [], []]);
    var sel := Selection(TableauPile(0), [king]);
    assert DropLast(l.tableau[0], 1) == [];
    assert l.tableau[1] + [king] == [king];
  }

  /** Whether a click on `target` with a selection moves it: a foundation takes a
      single card it accepts, a tableau pile a run whose first card it accepts;
      a click on the waste moves nothing. */
  predicate ClickMoves(l: Layout, sel: Selection, target: Place)
    requires LayoutOk(l) && PlaceOk(target) && |sel.cards| > 0
  {
    match target
    case WastePile => false
    case FoundationPile(i) => |sel.cards| == 1 && CanPlaceOnFoundation(l.foundations[i], sel.cards[0])
    case TableauPile(i) => CanPlaceOnTableau(l.tableau[i], sel.cards[0])
  }

  function TargetOf(p: Place): (t: Target)
    requires !p.WastePile?
    ensures t.i == p.i && (t.ToFoundation? <==> p.FoundationPile?)
  {
    if p.FoundationPile? then ToFoundation(p.i) else ToTableau(p.i)
  }

  /** Taking the selection off its source keeps every foundation built. */
  lemma RemovedKeepsFoundations(l: Layout, sel: Selection)
    requires LayoutOk(l) && PlaceOk(sel.source) && |sel.cards| > 0 && InPlace(l, sel)
    requires forall i :: 0 <= i < 4 ==> Ascending(l.foundations[i])
    ensures forall i :: 0 <= i < 4 ==> Ascending(Removed(l, sel).foundations[i])
  {
    var r := Removed(l, sel);
    forall i | 0 <= i < 4 ensures Ascending(r.foundations[i]) {
      if sel.source == FoundationPile(i) {
        var f := l.foundations[i];
        assert r.foundations[i] == f[..|f| - 1];
      }
    }
  }

  /** A legal move of a selection that lies at the end of its source keeps every
      foundation built. */
  lemma LegalMoveKeepsFoundations(l: Layout, sel: Selection, target: Place)
    requires LayoutOk(l) && PlaceOk(sel.source) && PlaceOk(target) && |sel.cards| > 0
    requires InPlace(l, sel) && ClickMoves(l, sel, target)
    requires forall i :: 0 <= i < 4 ==> Ascending(l.foundations[i])
    ensures forall i :: 0 <= i < 4 ==> Ascending(Moved(l, sel, TargetOf(target)).foundations[i])
  {
    var r := Removed(l, sel);
    RemovedKeepsFoundations(l, sel);
    if target.FoundationPile? {
      var i := target.i;
      assert r.foundations[i] == l.foundations[i];
      FoundationGrows(l.foundations[i], sel.cards[0]);
    }
  }

  /** The lowest-index foundation that accepts `card`, if any. */
  function FirstFoundation(fs: seq<seq<Card>>, card: Card): (r: Option<int>)
    ensures r.Some? ==>
      0 <= r.value < |fs| && CanPlaceOnFoundation(fs[r.value], card)
      && forall k :: 0 <= k < r.value ==> !CanPlaceOnFoundation(fs[k], card)
    ensures r.None? ==> forall k :: 0 <= k < |fs| ==> !CanPlaceOnFoundation(fs[k], card)
  {
    FirstFrom(fs, card, 0)
  }

  function FirstFrom(fs: seq<seq<Card>>, card: Card, from: nat): (r: Option<int>)
    requires from <= |fs|
    requires forall k :: 0 <= k < from ==> !CanPlaceOnFoundation(fs[k], card)
    ensures r.Some? ==>
      from <= r.value < |fs| && CanPlaceOnFoundation(fs[r.value], card)
      && forall k :: 0 <= k < r.value ==> !CanPlaceOnFoundation(fs[k], card)
    ensures r.None? ==> forall k :: 0 <= k < |fs| ==> !CanPlaceOnFoundation(fs[k], card)
    decreases |fs| - from
  {
    if from == |fs| then None
    else if CanPlaceOnFoundation(fs[from], card) then Some(from)
    else FirstFrom(fs, card, from + 1)
  }

  // ---------------------------------------------------------------- the clock

  /** The clock text for `mins` minutes and `secs` seconds: the minutes, a
      colon, and the seconds padded to two digits. */
  function Clock(mins: nat, secs: nat): string
  {
    Decimal(mins) + [':'] + PadStart(Decimal(secs), 2, '0')
  }

  lemma ClockValue(mins: nat, secs: nat)
    requires secs < 60
    ensures var t := Clock(mins, secs);
      && |t| >= 4 && t[|t| - 3] == ':'
      && AllDigits(t[..|t| - 3]) && AllDigits(t[|t| - 2..])
      && NumeralValue(t[..|t| - 3]) == mins && NumeralValue(t[|t| - 2..]) == secs
  {
    var m := Decimal(mins);
    var d := Decimal(secs);
    var pad := Zeros(2 - |d|) + d;
    assert PadStart(d, 2, '0') == pad;
    DecimalValue(secs);
    ZerosValue(2 - |d|, d);
    DecimalValue(mins);
    var t := Clock(mins, secs);
    assert t == m + [':'] + pad;
    assert t[..|t| - 3] == m;
    assert t[|t| - 2..] == pad;
  }

  /** The text before the colon is the minutes' numeral, unpadded. */
  lemma ClockMinutes(mins: nat, secs: nat)
    requires secs < 60
    ensures var t := Clock(mins, secs); |t| >= 4 && t[..|t| - 3] == Decimal(mins)
  {
    var d := Decimal(secs);
    assert |PadStart(d, 2, '0')| == 2;
    var t := Clock(mins, secs);
    assert t[..|t| - 3] == Decimal(mins);
  }

  /** The elapsed time as the game shows it: minutes, a colon and two digits of
      seconds; reading it back (sixty times the minutes plus the seconds) gives
      the time. */
  function FormatTime(seconds: nat): (t: string)
    ensures |t| >= 4 && t[|t| - 3] == ':'
    ensures AllDigits(t[..|t| - 3]) && AllDigits(t[|t| - 2..])
    ensures NumeralValue(t[..|t| - 3]) == seconds / 60 && NumeralValue(t[|t| - 2..]) == seconds % 60
    ensures 60 * NumeralValue(t[..|t| - 3]) + NumeralValue(t[|t| - 2..]) == seconds
    ensures t[..|t| - 3] == Decimal(seconds / 60)
    ensures |t| == 4 || t[0] != '0'
  {
    ClockValue(seconds / 60, seconds % 60);
    ClockMinutes(seconds / 60, seconds % 60);
    Clock(seconds / 60, seconds % 60)
  }

  // ---------------------------------------------------------------- the game

  /** One game: its fields are the component's state. */
  class Game {
    var stock: seq<Card>
    var waste: seq<Card>
    var foundations: seq<seq<Card>>
    var tableau: seq<seq<Card>>
    var selectedCards: Option<Selection>
    var gameState: GameState
    var moves: nat
    var time: nat

    /** Four foundations and seven piles; a selection is never empty and comes
        from a place that exists. */
    ghost predicate Valid()
      reads this
    {
      && |foundations| == 4 && |tableau| == 7
      && (selectedCards.Some? ==> |selectedCards.value.cards| > 0 && PlaceOk(selectedCards.value.source))
    }

    function Current(): (l: Layout)
      reads this
      ensures l.waste == waste && l.foundations == foundations && l.tableau == tableau
    {
      Layout(waste, foundations, tableau)
    }

    /** The component once mounted: the game has been dealt with the given
        shuffle draws. */
    constructor (draws: seq<int>)
      requires |draws| == 52 && forall i :: 0 < i < 52 ==> 0 <= draws[i] <= i
      ensures Valid()
      ensures exists deck :: IsShuffledDeck(deck) && DealtFrom(deck, tableau, stock)
      ensures waste == [] && foundations == [[], [], [], []] && selectedCards == None
      ensures gameState == Playing && moves == 0 && time == 0
    {
      stock := [];
      waste := [];
      foundations := [[], [], [], []];
      tableau := [[], [], [], [], [], [], []];
      selectedCards := None;
      gameState := Playing;
      moves := 0;
      time := 0;
      new;
      InitializeGame(draws);
    }

    /** A fresh deal from a shuffled standard deck: 28 cards in the seven piles,
        the other 24 in the stock, everything else reset. */
    method InitializeGame(draws: seq<int>)
      requires |draws| == 52 && forall i :: 0 < i < 52 ==> 0 <= draws[i] <= i
      modifies this
      ensures Valid()
      ensures exists deck :: IsShuffledDeck(deck) && DealtFrom(deck, tableau, stock)
      ensures waste == [] && foundations == [[], [], [], []] && selectedCards == None
      ensures gameState == Playing && moves == 0 && time == 0
    {
      var ordered := CreateDeck();
      var deck := ShuffleDeck(ordered, draws);
      var newTableau, rest := Deal(deck);
      assert IsShuffledDeck(deck);
      tableau := newTableau;
      stock := rest;
      waste := [];
      foundations := [[], [], [], []];
      selectedCards := None;
      gameState := Playing;
      moves := 0;
      time := 0;
    }

    /** A click on the stock; it counts as a move either way. */
    method DrawFromStock()
      modifies this
      ensures (stock, waste) == Draw(old(stock), old(waste))
      ensures moves == old(moves) + 1
      ensures foundations == old(foundations) && tableau == old(tableau)
      ensures selectedCards == old(selectedCards) && gameState == old(gameState) && time == old(time)
    {
      if |stock| == 0 {
        stock := Reverse(SetFace(waste, false));
        waste := [];
      } else {
        var card := stock[|stock| - 1].(faceUp := true);
        stock := stock[..|stock| - 1];
        waste := waste + [card];
      }
      moves := moves + 1;
    }

    /** Moving the cards of `from` to `to`: off the source first, then onto the
        target as it is after the removal. */
    method MoveCards(from: Selection, to: Target)
      requires Valid() && PlaceOk(from.source) && TargetOk(to)
      modifies this
      ensures Valid()
      ensures Current() == Moved(old(Current()), from, to)
      ensures moves == old(moves) + 1
      ensures stock == old(stock) && selectedCards == old(selectedCards)
      ensures gameState == old(gameState) && time == old(time)
    {
      var cardCount := |from.cards|;
      match from.source {
        case WastePile =>
          waste := DropLast(waste, 1);
        case TableauPile(p) =>
          var newPile := DropLast(tableau[p], cardCount);
          if |newPile| > 0 && !newPile[|newPile| - 1].faceUp {
            newPile := newPile[|newPile| - 1 := newPile[|newPile| - 1].(faceUp := true)];
          }
          tableau := tableau[p := newPile];
        case FoundationPile(p) =>
          foundations := foundations[p := DropLast(foundations[p], 1)];
      }
      assert Current() == Removed(old(Current()), from);
      match to {
        case ToFoundation(i) =>
          foundations := foundations[i := foundations[i] + from.cards];
        case ToTableau(i) =>
          tableau := tableau[i := tableau[i] + from.cards];
      }
      moves := moves + 1;
    }

    /** A click on a place showing `cards`. Without a selection it selects a
        non-empty run that starts face up. With one it tries the move and then
        drops the selection. */
    method HandleCardClick(source: Place, cards: seq<Card>)
      requires Valid() && PlaceOk(source)
      modifies this
      ensures Valid()
      ensures old(selectedCards).None? ==>
        && Current() == old(Current()) && moves == old(moves)
        && selectedCards == if |cards| > 0 && cards[0].faceUp then Some(Selection(source, cards)) else None
      ensures old(selectedCards).Some? ==> selectedCards == None
      ensures old(selectedCards).Some? && ClickMoves(old(Current()), old(selectedCards).value, source) ==>
        Current() == Moved(old(Current()), old(selectedCards).value, TargetOf(source)) && moves == old(moves) + 1
      ensures old(selectedCards).Some? && !ClickMoves(old(Current()), old(selectedCards).value, source) ==>
        Current() == old(Current()) && moves == old(moves)
      ensures stock == old(stock) && gameState == old(gameState) && time == old(time)
    {
      if selectedCards.None? {
        if |cards| > 0 && cards[0].faceUp {
          selectedCards := Some(Selection(source, cards));
        }
      } else {
        var sel := selectedCards.value;
        match source {
          case FoundationPile(i) =>
            if |sel.cards| == 1 && CanPlaceOnFoundation(foundations[i], sel.cards[0]) {
              MoveCards(sel, ToFoundation(i));
            }
          case TableauPile(i) =>
            if CanPlaceOnTableau(tableau[i], sel.cards[0]) {
              MoveCards(sel, ToTableau(i));
            }
          case WastePile =>
        }
        selectedCards := None;
      }
    }

    /** A double-click sends the card to the lowest-index foundation that
        accepts it, or does nothing. */
    method HandleDoubleClick(source: Place, card: Card)
      requires Valid() && PlaceOk(source)
      modifies this
      ensures Valid()
      ensures FirstFoundation(old(foundations), card).None? ==>
        Current() == old(Current()) && moves == old(moves)
      ensures FirstFoundation(old(foundations), card).Some? ==>
        && Current() == Moved(old(Current()), Selection(source, [card]), ToFoundation(FirstFoundation(old(foundations), card).value))
        && moves == old(moves) + 1
      ensures stock == old(stock) && selectedCards == old(selectedCards)
      ensures gameState == old(gameState) && time == old(time)
    {
      for i := 0 to 4
        invariant forall k :: 0 <= k < i ==> !CanPlaceOnFoundation(foundations[k], card)
        invariant Current() == old(Current()) && moves == old(moves)
        invariant stock == old(stock) && selectedCards == old(selectedCards)
        invariant gameState == old(gameState) && time == old(time)
      {
        if CanPlaceOnFoundation(foundations[i], card) {
          MoveCards(Selection(source, [card]), ToFoundation(i));
          return;
        }
      }
    }

    /** The delayed win check: it reads the foundations captured when the move
        was made, not the ones the move produced. */
    method WinCheck(captured: seq<seq<Card>>)
      modifies this
      ensures gameState == if AllComplete(captured) then Won else old(gameState)
      ensures Current() == old(Current()) && stock == old(stock) && moves == old(moves)
      ensures selectedCards == old(selectedCards) && time == old(time)
    {
      if AllComplete(captured) {
        gameState := Won;
      }
    }

    /** One second of the clock, which runs while the game is being played. */
    method Tick()
      modifies this
      ensures time == if old(gameState) == Playing then old(time) + 1 else old(time)
      ensures Current() == old(Current()) && stock == old(stock) && moves == old(moves)
      ensures selectedCards == old(selectedCards) && gameState == old(gameState)
    {
      if gameState == Playing {
        time := time + 1;
      }
    }
  }
}
