/** Deck construction: the icon catalogue, `pickUniqueIcons` and `buildDeck`
    of scripts.js. The random draws of every shuffle are supplied by the caller. */
module Deck {
  import opened Shuffle

  /** The catalogue of icon names (`ICONS`), in its source order. It is written
      as two displays joined by `+` only because the verifier cannot index the
      early entries of one 47-element display. */
  const ICONS: seq<string> := [
    "check-circle", "appearance", "book", "bookmark", "diagram", "doc-code", "doc-image",
    "doc-text", "doc-versions", "document", "documents", "earth", "heart", "home",
    "hourglass", "issue-type-objective", "issue-type-test-case", "key", "keyboard",
    "kind", "link", "list-task", "lock", "merge"
  ] + [
    "messages", "monitor", "nature", "notifications", "package", "paper-airplane",
    "pencil", "profile", "quota", "recipe", "remove", "review-list", "rocket", "scale",
    "search", "share", "tablet", "thumb-up", "unlink", "user", "warning",
    "work-item-issue", "work-item-maintenance"
  ]

  const BOARD_COLS := 6
  /** The number of different icons on the board. */
  const PAIRS := BOARD_COLS * 2
  const TOTAL_CARDS := PAIRS * 2

  /** The card's `type`: it shows the icon's picture or its name. */
  datatype Face = Image | Text

  /** One entry of the deck: `{ name, type }`. */
  datatype Card = Card(name: string, face: Face)

  datatype Error = NotEnoughIcons

  datatype Result<T> = Ok(value: T) | Err(error: Error)

  /** A proof device for the distinctness of the catalogue, not part of the
      game: the position of `name` in `ICONS`, or -1, decided on the name's
      length first. A catalogue entry that decodes back to its own position
      cannot occur twice. */
  function CataloguePosition(name: string): int
  {
    match |name|
    case 3 => if name == "key" then 17 else -1
    case 4 => if name == "book" then 2 else if name == "home" then 13
      else if name == "kind" then 19 else if name == "link" then 20
      else if name == "lock" then 22 else if name == "user" then 43 else -1
    case 5 => if name == "earth" then 11 else if name == "heart" then 12
      else if name == "merge" then 23 else if name == "quota" then 32
      else if name == "scale" then 37 else if name == "share" then 39 else -1
    case 6 => if name == "nature" then 26 else if name == "pencil" then 30
      else if name == "recipe" then 33 else if name == "remove" then 34
      else if name == "rocket" then 36 else if name == "search" then 38
      else if name == "tablet" then 40 else if name == "unlink" then 42 else -1
    case 7 => if name == "diagram" then 4 else if name == "monitor" then 25
      else if name == "package" then 28 else if name == "profile" then 31
      else if name == "warning" then 44 else -1
    case 8 => if name == "bookmark" then 3 else if name == "doc-code" then 5
      else if name == "doc-text" then 7 else if name == "document" then 9
      else if name == "keyboard" then 18 else if name == "messages" then 24
      else if name == "thumb-up" then 41 else -1
    case 9 => if name == "doc-image" then 6 else if name == "documents" then 10
      else if name == "hourglass" then 14 else if name == "list-task" then 21 else -1
    case 10 => if name == "appearance" then 1 else -1
    case 11 => if name == "review-list" then 35 else -1
    case 12 => if name == "check-circle" then 0 else if name == "doc-versions" then 8 else -1
    case 13 => if name == "notifications" then 27 else -1
    case 14 => if name == "paper-airplane" then 29 else -1
    case 15 => if name == "work-item-issue" then 45 else -1
    case 20 => if name == "issue-type-objective" then 15
      else if name == "issue-type-test-case" then 16 else -1
    case 21 => if name == "work-item-maintenance" then 46 else -1
    case _ => -1
  }

  lemma CataloguePositionsLow()
    ensures |ICONS| == 47 && forall k :: 0 <= k < 24 ==> CataloguePosition(ICONS[k]) == k
  {
  }

  lemma CataloguePositionsHigh()
    ensures |ICONS| == 47 && forall k :: 24 <= k < 47 ==> CataloguePosition(ICONS[k]) == k
  {
  }

  /** No icon name is listed twice in the catalogue. */
  lemma IconsDistinct()
    ensures |ICONS| == 47 && Distinct(ICONS)
  {
    CataloguePositionsLow();
    CataloguePositionsHigh();
  }

  /** `pickUniqueIcons(count)`: fails when the catalogue is too small, and
      otherwise returns the first `count` names of the shuffled catalogue. */
  function PickUniqueIcons(count: nat, draws: seq<nat>): (r: Result<seq<string>>)
    requires ValidDraws(draws, |ICONS|)
    ensures r.Err? <==> count > |ICONS|
    ensures r.Ok? ==> |r.value| == count && Distinct(r.value)
    ensures r.Ok? ==> forall x :: x in r.value ==> x in ICONS
  {
    if count > |ICONS| then Err(NotEnoughIcons)
    else
      IconsDistinct();
      ShuffledPrefix(ICONS, draws, count);
      Ok(Shuffled(ICONS, draws)[..count])
  }

  /** One card of face `face` per name (`picked.map(name => ({ name, type }))`). */
  function Faced(names: seq<string>, face: Face): seq<Card>
  {
    seq(|names|, k requires 0 <= k < |names| => Card(names[k], face))
  }

  /** `deck` holds, for every name of `names`, exactly one image card and
      exactly one text card, and no other card; the image cards come first. */
  ghost predicate DealtFrom(deck: seq<Card>, names: seq<string>)
  {
    && |deck| == 2 * |names|
    && (forall k :: 0 <= k < |names| ==> deck[k].face == Image)
    && (forall k :: |names| <= k < |deck| ==> deck[k].face == Text)
    && (forall k :: 0 <= k < |deck| ==> deck[k].name in names)
    && (forall x :: x in names ==> multiset(deck)[Card(x, Image)] == 1 && multiset(deck)[Card(x, Text)] == 1)
  }

  /** `buildDeck()`: the picked names as image cards, shuffled, followed by the
      same names as text cards, shuffled on their own. With `PAIRS` at most
      `|ICONS|` the pick cannot fail. */
  function BuildDeck(pickDraws: seq<nat>, imageDraws: seq<nat>, textDraws: seq<nat>): (deck: seq<Card>)
    requires ValidDraws(pickDraws, |ICONS|)
    requires ValidDraws(imageDraws, PAIRS) && ValidDraws(textDraws, PAIRS)
    ensures |deck| == TOTAL_CARDS
    ensures DealtFrom(deck, PickUniqueIcons(PAIRS, pickDraws).value)
  {
    var picked := PickUniqueIcons(PAIRS, pickDraws).value;
    var images := Faced(picked, Image);
    var texts := Faced(picked, Text);
    var deck := Shuffled(images, imageDraws) + Shuffled(texts, textDraws);
    ShuffledDealt(picked, imageDraws, textDraws);
    deck
  }

  /** In a sequence of faced cards over distinct names, each name's card of
      that face occurs once, and no card of the other face occurs. */
  lemma FacedCount(names: seq<string>, face: Face, x: string)
    requires Distinct(names)
    ensures multiset(Faced(names, face))[Card(x, face)] == if x in names then 1 else 0
    ensures forall g :: g != face ==> multiset(Faced(names, face))[Card(x, g)] == 0
  {
    var cards := Faced(names, face);
    assert Distinct(cards);
    DistinctMultiset(cards);
    if x in names {
      var k :| 0 <= k < |names| && names[k] == x;
      assert cards[k] == Card(x, face);
    }
  }

  lemma ShuffledDealt(picked: seq<string>, imageDraws: seq<nat>, textDraws: seq<nat>)
    requires Distinct(picked)
    requires ValidDraws(imageDraws, |picked|) && ValidDraws(textDraws, |picked|)
    ensures DealtFrom(Shuffled(Faced(picked, Image), imageDraws) + Shuffled(Faced(picked, Text), textDraws), picked)
  {
    var images, texts := Faced(picked, Image), Faced(picked, Text);
    var si, st := Shuffled(images, imageDraws), Shuffled(texts, textDraws);
    ShuffledPermutes(images, imageDraws);
    ShuffledPermutes(texts, textDraws);
    var deck := si + st;
    var n := |picked|;
    forall k | 0 <= k < |deck|
      ensures deck[k].name in picked
      ensures k < n ==> deck[k].face == Image
      ensures n <= k ==> deck[k].face == Text
    {
      if k < n {
        assert deck[k] in multiset(images);
      } else {
        assert deck[k] == st[k - n] && deck[k] in multiset(texts);
      }
    }
    forall x | x in picked
      ensures multiset(deck)[Card(x, Image)] == 1 && multiset(deck)[Card(x, Text)] == 1
    {
      FacedCount(picked, Image, x);
      FacedCount(picked, Text, x);
    }
  }

  /** Two cards of a dealt deck that carry the same name are an image card
      and a text card: a name is never on more than two cards. */
  lemma DealtPairsDifferInFace(deck: seq<Card>, names: seq<string>, i: nat, j: nat)
    requires DealtFrom(deck, names)
    requires i < j < |deck| && deck[i].name == deck[j].name
    ensures deck[i].face != deck[j].face
  {
    if deck[i].face == deck[j].face {
      TwiceInMultiset(deck, i, j);
      assert false;
    }
  }

  /** Every card of a dealt deck has a partner: another card with its name. */
  lemma DealtPartner(deck: seq<Card>, names: seq<string>, i: nat)
    requires DealtFrom(deck, names) && i < |deck|
    ensures exists j :: 0 <= j < |deck| && j != i && deck[j].name == deck[i].name && deck[j].face != deck[i].face
  {
    var other := Card(deck[i].name, if deck[i].face == Image then Text else Image);
    assert deck[i].name in names;
    assert other in multiset(deck);
    var j :| 0 <= j < |deck| && deck[j] == other;
    assert j != i;
  }

  /** A value found at two different positions occurs at least twice. */
  lemma TwiceInMultiset<T>(s: seq<T>, i: nat, j: nat)
    requires i < j < |s| && s[i] == s[j]
    ensures multiset(s)[s[i]] >= 2
  {
    assert s == s[..j] + s[j..];
    assert s[i] in s[..j] && s[j] in s[j..];
  }
}
