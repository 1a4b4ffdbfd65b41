/** The two books joined: the feed-driven book that reads the venue's feed holds the venue's orders. */
module Follower {
  import opened Feed
  import opened BookBuilderModel
  import opened Ownership
  import VenueModel
  import VenueState

  function Wrap(s: seq<Itch>): (r: seq<Input>)
    ensures |r| == |s|
  {
    seq(|s|, i requires 0 <= i < |s| => Message(s[i]))
  }

  /** Share counts fit the book's packed record. */
  predicate Small(m: Itch) {
    match m
    case AddOrder(_, _, shares, _) => shares <= SHARES_MASK
    case OrderReplace(_, _, shares, _) => shares <= SHARES_MASK
    case _ => true
  }

  lemma {:induction false} AfterAllFold(b: Book, s: seq<Itch>)
    ensures AfterAll(b, Wrap(s)) == Fold(b, s)
    decreases |s|
  {
    if s != [] {
      assert Wrap(s)[1..] == Wrap(s[1..]);
      AfterAllFold(Apply(b, s[0]), s[1..]);
    }
  }

  lemma {:induction false} CleanAt(s: seq<Itch>, i: nat)
    requires Clean(s) && i < |s|
    ensures Fresh(Fold(map[], s[..i]), s[i])
    decreases |s|
  {
    var front := s[..|s| - 1];
    if i < |front| {
      CleanAt(front, i);
      assert front[..i] == s[..i];
    }
  }

  /** A clean feed of small messages is one the book accepts from its start. */
  lemma {:induction false} CleanWellFormed(s: seq<Itch>, i: nat)
    requires Clean(s) && i <= |s| && forall j :: 0 <= j < |s| ==> Small(s[j])
    ensures AllWellFormed(Fold(map[], s[..i]), Wrap(s[i..]))
    decreases |s| - i
  {
    if i < |s| {
      CleanAt(s, i);
      CleanWellFormed(s, i + 1);
      var b := Fold(map[], s[..i]);
      assert s[..i + 1] == s[..i] + [s[i]];
      FoldSnoc(map[], s[..i], s[i]);
      assert WellFormed(b, s[i]);
      assert Wrap(s[i..])[0] == Message(s[i]);
      assert Wrap(s[i..])[1..] == Wrap(s[i + 1..]);
    }
  }

  /**
   * Whatever the venue has done while it was the only source of its feed, a book that reads that
   * feed from the start holds exactly the orders the venue announced and still rests.
   */
  method Follow(v: VenueModel.Venue, book: BookBuilder)
    requires v.Valid() && v.FeedOk() && book.Valid() && book.orders == map[]
    requires forall j :: 0 <= j < |v.md| ==> Small(v.md[j])
    modifies book
    ensures book.Valid() && Plain(book.orders) == VenueState.FeedOf(v.D(), v.engine.pool)
  {
    var s := v.md;
    ghost var target := VenueState.FeedOf(v.D(), v.engine.pool);
    ShowsMeans(s, target);
    CleanWellFormed(s, 0);
    assert s[..0] == [] && s[0..] == s;
    AfterAllFold(map[], s);
    assert Plain(book.orders) == map[];
    book.ApplyAll(Wrap(s), map[]);
  }
}
