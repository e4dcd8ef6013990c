/** Custom scene cards, the operations that carry them to the engine, and the card list itself. */
module SceneCatalog {
  import opened Bytes
  import opened Utf8
  import opened Wrappers

  const MAX_SCENES: nat := 32
  const MAX_ID_BYTES: nat := 31
  const LANE_SUFFIX_BYTES: nat := 5

  type Id = seq<Byte>

  datatype Card = Card(
    id: Id,
    name: seq<Byte>,
    description: seq<Byte>,
    latencyLabel: seq<Byte>,
    safetyEnabled: bool,
    irReference: seq<Byte>,
    loudnessLiveUpdate: bool)

  /** What the engine's catalog and a card have in common. */
  datatype Shown = Shown(name: seq<Byte>, irReference: seq<Byte>, loudnessLiveUpdate: bool)

  /** One replayable change of the engine's scene catalog. */
  datatype Op = Op(
    isUpsert: bool,
    sceneId: Id,
    name: seq<Byte>,
    outputGroup: seq<Byte>,
    irReference: seq<Byte>,
    loudnessLiveUpdate: bool)

  function ShownOf(card: Card): Shown { Shown(card.name, card.irReference, card.loudnessLiveUpdate) }

  function UpsertOp(card: Card, outputGroup: seq<Byte>): Op {
    Op(true, card.id, card.name, outputGroup, card.irReference, card.loudnessLiveUpdate)
  }

  function RemoveOp(id: Id): Op { Op(false, id, [], [], [], false) }

  /** Length in UTF-16 code units of well-formed text. */
  function Utf16Length(text: seq<Byte>): nat {
    if text == [] then 0
    else (if IsContinuation(text[0]) then 0 else if text[0] >= 0xF0 then 2 else 1) + Utf16Length(text[1..])
  }

  lemma {:induction false} ContinuationsCountNothing(text: seq<Byte>, count: nat)
    requires count <= |text| && forall i :: 0 <= i < count ==> IsContinuation(text[i])
    ensures Utf16Length(text) == Utf16Length(text[count..])
  {
    if count == 0 {
      assert text[0..] == text;
    } else {
      ContinuationsCountNothing(text[1..], count - 1);
      assert text[1..][count - 1..] == text[count..];
    }
  }

  lemma LeadAndContinuations(text: seq<Byte>)
    requires HeadLength(text) > 0
    ensures !IsContinuation(text[0]) && (text[0] >= 0xF0 <==> HeadLength(text) == 4)
    ensures forall i :: 1 <= i < HeadLength(text) ==> IsContinuation(text[i])
  {
  }

  /** Each character counts one unit, and those of four bytes two. */
  lemma Utf16LengthOfFirst(text: seq<Byte>)
    requires WellFormed(text)
    ensures text == [] ==> Utf16Length(text) == 0
    ensures text != [] ==>
              var n := HeadLength(text);
              1 <= n <= |text| && Utf16Length(text) == (if n == 4 then 2 else 1) + Utf16Length(text[n..])
  {
    if text != [] {
      var n := HeadLength(text);
      LeadAndContinuations(text);
      assert forall i :: 0 <= i < n - 1 ==> text[1..][i] == text[i + 1];
      ContinuationsCountNothing(text[1..], n - 1);
      assert text[1..][n - 1..] == text[n..];
    }
  }

  /** Empty, or 8 to 64 printable bytes. */
  predicate ReferenceIsValid(reference: seq<Byte>) {
    Printable(reference) && |reference| <= 64 && (reference == [] || |reference| >= 8)
  }

  predicate NameIsValid(name: seq<Byte>) { name != [] && Printable(name) && |name| <= 120 }

  predicate GroupIsValid(group: seq<Byte>) { group != [] && Printable(group) && |group| <= 64 }

  /** Ids of the built-in scenes: game, movie, voice, studio. */
  predicate IsBuiltIn(id: Id) {
    || id == [0x67, 0x61, 0x6D, 0x65]
    || id == [0x6D, 0x6F, 0x76, 0x69, 0x65]
    || id == [0x76, 0x6F, 0x69, 0x63, 0x65]
    || id == [0x73, 0x74, 0x75, 0x64, 0x69, 0x6F]
  }

  predicate CardIsValid(card: Card) {
    && card.id != [] && |card.id| <= MAX_ID_BYTES && ValidId(card.id) && !IsBuiltIn(card.id)
    && NameIsValid(card.name) && ReferenceIsValid(card.irReference)
    && Printable(card.description) && Utf16Length(card.description) <= 240
    && Printable(card.latencyLabel) && Utf16Length(card.latencyLabel) <= 64
  }

  /** What the replay queue accepts. */
  predicate OpIsValid(op: Op) {
    && op.sceneId != [] && |op.sceneId| <= MAX_ID_BYTES && ValidId(op.sceneId)
    && if op.isUpsert then NameIsValid(op.name) && GroupIsValid(op.outputGroup) && ReferenceIsValid(op.irReference)
       else op.name == [] && op.outputGroup == [] && op.irReference == []
  }

  /** What the command encoder accepts: an upsert also derives a lane id that must fit. */
  predicate Encodable(op: Op) {
    && op.sceneId != [] && |op.sceneId| <= MAX_ID_BYTES && Printable(op.sceneId)
    && (op.isUpsert ==>
          && NameIsValid(op.name) && GroupIsValid(op.outputGroup) && ReferenceIsValid(op.irReference)
          && |op.sceneId| + LANE_SUFFIX_BYTES <= MAX_ID_BYTES)
  }

  lemma {:induction false} IdsArePrintable(id: Id)
    requires forall i :: 0 <= i < |id| ==> IdCharacter(id[i], false)
    ensures Printable(id)
  {
    if id != [] {
      IdsArePrintable(id[1..]);
      assert HeadLength(id) == 1;
    }
  }

  /** A queued operation reaches the engine unless it is an upsert whose id has 27 to 31 bytes. */
  lemma EncodableExactly(op: Op)
    requires OpIsValid(op)
    ensures Encodable(op) <==> !op.isUpsert || |op.sceneId| <= 26
  {
    IdsArePrintable(op.sceneId);
  }

  /** A valid card always gives a valid operation, given a valid output group. */
  lemma CardsGiveValidOps(card: Card, outputGroup: seq<Byte>)
    requires CardIsValid(card)
    ensures OpIsValid(UpsertOp(card, outputGroup)) <==> GroupIsValid(outputGroup)
    ensures OpIsValid(RemoveOp(card.id))
  {
  }

  // The cards as a map from id to card.

  ghost predicate UniqueIds(cards: seq<Card>) {
    forall i, j :: 0 <= i < j < |cards| ==> cards[i].id != cards[j].id
  }

  function FindIndex(cards: seq<Card>, id: Id): (index: int)
    ensures -1 <= index < |cards|
    ensures index >= 0 ==> cards[index].id == id
    ensures index < 0 ==> forall i :: 0 <= i < |cards| ==> cards[i].id != id
  {
    if cards == [] then -1
    else if cards[0].id == id then 0
    else
      var rest := FindIndex(cards[1..], id);
      if rest < 0 then -1 else rest + 1
  }

  /** The list read as a table. */
  ghost function Table(cards: seq<Card>): map<Id, Card> {
    if cards == [] then map[]
    else Table(cards[..|cards| - 1])[cards[|cards| - 1].id := cards[|cards| - 1]]
  }

  /** A list the catalog may hold. */
  ghost predicate ListFits(cards: seq<Card>) {
    UniqueIds(cards) && |cards| <= MAX_SCENES && forall i :: 0 <= i < |cards| ==> CardIsValid(cards[i])
  }

  /** The table holds exactly the cards of the list, under their ids. */
  ghost predicate Holds(table: map<Id, Card>, cards: seq<Card>) {
    && (forall i :: 0 <= i < |cards| ==> cards[i].id in table && table[cards[i].id] == cards[i])
    && forall id :: id in table ==> exists i :: 0 <= i < |cards| && cards[i].id == id
  }

  lemma HeldOnce(one: map<Id, Card>, other: map<Id, Card>, cards: seq<Card>)
    requires Holds(one, cards) && Holds(other, cards)
    ensures one == other
  {
    forall id | id in one ensures id in other && other[id] == one[id] {
      var i :| 0 <= i < |cards| && cards[i].id == id;
    }
    forall id | id in other ensures id in one {
      var i :| 0 <= i < |cards| && cards[i].id == id;
    }
  }

  lemma HoldsOneMore(table: map<Id, Card>, cards: seq<Card>, card: Card)
    requires Holds(table, cards) && forall i :: 0 <= i < |cards| ==> cards[i].id != card.id
    ensures Holds(table[card.id := card], cards + [card]) && card.id !in table
  {
    var longer := cards + [card];
    assert longer[|cards|] == card;
    forall id | id in table ensures exists i :: 0 <= i < |longer| && longer[i].id == id {
      var i :| 0 <= i < |cards| && cards[i].id == id;
      assert longer[i].id == id;
    }
  }

  lemma {:induction false} TableHolds(cards: seq<Card>)
    requires UniqueIds(cards)
    ensures Holds(Table(cards), cards) && |Table(cards)| == |cards|
  {
    if cards != [] {
      var front, last := cards[..|cards| - 1], cards[|cards| - 1];
      TableHolds(front);
      HoldsOneMore(Table(front), front, last);
      assert cards == front + [last];
      assert Table(front)[last.id := last].Keys == Table(front).Keys + {last.id};
    }
  }

  lemma FoundInTable(cards: seq<Card>, id: Id)
    requires UniqueIds(cards)
    ensures FindIndex(cards, id) >= 0 <==> id in Table(cards)
    ensures FindIndex(cards, id) >= 0 ==> Table(cards)[id] == cards[FindIndex(cards, id)]
  {
    TableHolds(cards);
  }

  lemma TableOfAppended(cards: seq<Card>, card: Card)
    requires UniqueIds(cards) && forall i :: 0 <= i < |cards| ==> cards[i].id != card.id
    ensures UniqueIds(cards + [card]) && Table(cards + [card]) == Table(cards)[card.id := card]
  {
    assert (cards + [card])[..|cards|] == cards;
  }

  lemma ReplacedHolds(table: map<Id, Card>, cards: seq<Card>, index: nat, card: Card)
    requires Holds(table, cards) && UniqueIds(cards) && index < |cards| && cards[index].id == card.id
    ensures UniqueIds(cards[index := card]) && Holds(table[card.id := card], cards[index := card])
  {
    var placed := cards[index := card];
    assert forall i :: 0 <= i < |placed| ==> placed[i].id == cards[i].id;
    forall id | id in table ensures exists i :: 0 <= i < |placed| && placed[i].id == id {
      var i :| 0 <= i < |cards| && cards[i].id == id;
      assert placed[i].id == id;
    }
  }

  lemma TableOfReplaced(cards: seq<Card>, index: nat, card: Card)
    requires UniqueIds(cards) && index < |cards| && cards[index].id == card.id
    ensures UniqueIds(cards[index := card]) && Table(cards[index := card]) == Table(cards)[card.id := card]
  {
    TableHolds(cards);
    ReplacedHolds(Table(cards), cards, index, card);
    TableHolds(cards[index := card]);
    HeldOnce(Table(cards)[card.id := card], Table(cards[index := card]), cards[index := card]);
  }

  lemma DroppedKeepsIds(cards: seq<Card>, index: nat)
    requires UniqueIds(cards) && index < |cards|
    ensures var left := cards[..index] + cards[index + 1..];
            && UniqueIds(left)
            && (forall card :: card in left ==> card in cards && card.id != cards[index].id)
            && forall card :: card in cards && card.id != cards[index].id ==> card in left
  {
    var left := cards[..index] + cards[index + 1..];
    forall i | 0 <= i < |left|
      ensures left[i] == cards[if i < index then i else i + 1]
    {
    }
    forall card | card in cards && card.id != cards[index].id ensures card in left {
      var k :| 0 <= k < |cards| && cards[k] == card;
      assert left[if k < index then k else k - 1] == card;
    }
  }

  lemma DroppedHolds(table: map<Id, Card>, cards: seq<Card>, id: Id, left: seq<Card>)
    requires Holds(table, cards)
    requires forall card :: card in left <==> card in cards && card.id != id
    ensures Holds(table - {id}, left)
  {
    forall i | 0 <= i < |left| ensures left[i].id in table && left[i].id != id && table[left[i].id] == left[i] {
      assert left[i] in cards;
    }
    forall x | x in table && x != id ensures exists i :: 0 <= i < |left| && left[i].id == x {
      var i :| 0 <= i < |cards| && cards[i].id == x;
      assert cards[i] in left;
    }
  }

  /** Dropping one position drops that card from the table. */
  lemma TableOfDropped(cards: seq<Card>, index: nat)
    requires UniqueIds(cards) && index < |cards|
    ensures var left := cards[..index] + cards[index + 1..];
            UniqueIds(left) && Table(left) == Table(cards) - {cards[index].id}
  {
    var left := cards[..index] + cards[index + 1..];
    TableHolds(cards);
    DroppedKeepsIds(cards, index);
    DroppedHolds(Table(cards), cards, cards[index].id, left);
    TableHolds(left);
    HeldOnce(Table(cards) - {cards[index].id}, Table(left), left);
  }

  function Placed(cards: seq<Card>, card: Card): seq<Card> {
    var index := FindIndex(cards, card.id);
    if index >= 0 then cards[index := card] else cards + [card]
  }

  function Dropped(cards: seq<Card>, id: Id): seq<Card> {
    var index := FindIndex(cards, id);
    if index >= 0 then cards[..index] + cards[index + 1..] else cards
  }

  lemma PlacedInTable(cards: seq<Card>, card: Card)
    requires UniqueIds(cards)
    ensures UniqueIds(Placed(cards, card)) && Table(Placed(cards, card)) == Table(cards)[card.id := card]
  {
    var index := FindIndex(cards, card.id);
    if index >= 0 {
      TableOfReplaced(cards, index, card);
    } else {
      TableOfAppended(cards, card);
    }
  }

  lemma NothingToDrop(table: map<Id, Card>, id: Id)
    requires id !in table
    ensures table - {id} == table
  {
  }

  lemma DroppedFromTable(cards: seq<Card>, id: Id)
    requires UniqueIds(cards)
    ensures UniqueIds(Dropped(cards, id)) && Table(Dropped(cards, id)) == Table(cards) - {id}
  {
    var index := FindIndex(cards, id);
    if index >= 0 {
      assert id == cards[index].id && Dropped(cards, id) == cards[..index] + cards[index + 1..];
      TableOfDropped(cards, index);
    } else {
      FoundInTable(cards, id);
      NothingToDrop(Table(cards), id);
    }
  }

  predicate Accepts(cards: seq<Card>, card: Card) {
    CardIsValid(card) && (FindIndex(cards, card.id) >= 0 || |cards| < MAX_SCENES)
  }

  lemma AcceptsByTable(cards: seq<Card>, card: Card)
    requires UniqueIds(cards)
    ensures Accepts(cards, card) <==> CardIsValid(card) && (card.id in Table(cards) || |Table(cards)| < MAX_SCENES)
    ensures |Table(cards)| == |cards|
  {
    TableHolds(cards);
    FoundInTable(cards, card.id);
  }

  lemma PlacedListFits(cards: seq<Card>, card: Card)
    requires ListFits(cards) && Accepts(cards, card)
    ensures ListFits(Placed(cards, card))
  {
    var placed := Placed(cards, card);
    assert UniqueIds(placed);
    forall i | 0 <= i < |placed| ensures CardIsValid(placed[i]) {
      assert placed[i] == card || (i < |cards| && placed[i] == cards[i]);
    }
  }

  lemma DroppedListFits(cards: seq<Card>, id: Id)
    requires ListFits(cards)
    ensures ListFits(Dropped(cards, id))
  {
    var index := FindIndex(cards, id);
    if index >= 0 {
      DroppedKeepsIds(cards, index);
    }
  }

  /** The card list of the view model: replaced at an index, appended to, or closed up after a removal. */
  class CustomSceneCatalog {
    var scenes: seq<Card>

    ghost predicate Valid()
      reads this
    {
      ListFits(scenes)
    }

    constructor ()
      ensures Valid() && scenes == []
    {
      scenes := [];
    }

    method Upsert(card: Card) returns (accepted: bool)
      requires Valid()
      modifies this
      ensures Valid() && accepted == Accepts(old(scenes), card)
      ensures scenes == if accepted then Placed(old(scenes), card) else old(scenes)
    {
      if !CardIsValid(card) {
        return false;
      }
      var index := FindIndex(scenes, card.id);
      if index < 0 && |scenes| >= MAX_SCENES {
        return false;
      }
      PlacedListFits(scenes, card);
      if index >= 0 {
        scenes := scenes[index := card];
        return true;
      }
      scenes := scenes + [card];
      return true;
    }

    method Remove(id: Id) returns (removed: bool)
      requires Valid()
      modifies this
      ensures Valid() && removed == (FindIndex(old(scenes), id) >= 0)
      ensures scenes == Dropped(old(scenes), id)
    {
      var index := FindIndex(scenes, id);
      if index < 0 {
        return false;
      }
      DroppedListFits(scenes, id);
      scenes := scenes[..index] + scenes[index + 1..];
      return true;
    }

    method Clear()
      modifies this
      ensures Valid() && scenes == []
    {
      scenes := [];
    }

    /** A complete candidate is validated before it replaces the list. */
    method Load(items: seq<Card>) returns (loaded: bool)
      requires Valid()
      modifies this
      ensures Valid() && (loaded <==> ListFits(items))
      ensures scenes == if loaded then items else old(scenes)
    {
      if |items| > MAX_SCENES {
        return false;
      }
      for index := 0 to |items|
        invariant ListFits(items[..index]) && unchanged(this)
      {
        var card := items[index];
        if !CardIsValid(card) || FindIndex(items[..index], card.id) >= 0 {
          return false;
        }
        assert items[..index + 1] == items[..index] + [card];
      }
      assert items[..|items|] == items;
      scenes := items;
      return true;
    }
  }
}
