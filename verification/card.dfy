/**
 Cards (`genanki/card.py`): a template ordinal and a suspension flag, and the
 row `write_to_db` inserts for a card. The row's id is taken from the wall
 clock and is not part of this model.
 */
module Cards {

  datatype Card = Card(ord: nat, suspend: bool)

  /** `Card(ord)`: a new card is not suspended. */
  function NewCard(ord: nat): (c: Card)
    ensures c.ord == ord && !c.suspend
  {
    Card(ord, false)
  }

  /** The columns of a `cards` row after the clock-derived id. */
  datatype CardRow = CardRow(
    nid: int, did: int, ord: nat, mod: int, usn: int, cardType: int, queue: int,
    due: int, ivl: int, factor: int, reps: int, lapses: int, left: int,
    odue: int, odid: int, flags: int, data: string)

  /** The queue Anki files a card under: suspended, or new. */
  function Queue(suspend: bool): (q: int)
    ensures q == -1 <==> suspend
    ensures q == 0 <==> !suspend
  {
    if suspend then -1 else 0
  }

  /** The row `write_to_db` inserts for card `c` of note `noteId`. */
  function CardRowOf(c: Card, nowTs: int, deckId: int, noteId: int): (r: CardRow)
    ensures r.nid == noteId && r.did == deckId && r.mod == nowTs
    ensures r.ord == c.ord
    ensures r.queue == -1 <==> c.suspend
    ensures r.queue == 0 <==> !c.suspend
    ensures r.usn == -1
    ensures r.cardType == 0 && r.due == 0 && r.ivl == 0 && r.factor == 0 && r.reps == 0
    ensures r.lapses == 0 && r.left == 0 && r.odue == 0 && r.odid == 0 && r.flags == 0
    ensures r.data == ""
  {
    CardRow(noteId, deckId, c.ord, nowTs, -1, 0, Queue(c.suspend), 0, 0, 0, 0, 0, 0, 0, 0, 0, "")
  }

  /** The card a row describes. */
  function CardOfRow(r: CardRow): Card {
    Card(r.ord, r.queue == -1)
  }

  /** The row keeps everything the card holds. */
  lemma CardRowRoundTrip(c: Card, nowTs: int, deckId: int, noteId: int)
    ensures CardOfRow(CardRowOf(c, nowTs, deckId, noteId)) == c
  {
  }

  /** Two cards of the same note written at the same time differ only in
      their ord and queue columns. */
  lemma CardRowsAgreeElsewhere(c1: Card, c2: Card, nowTs: int, deckId: int, noteId: int)
    ensures CardRowOf(c1, nowTs, deckId, noteId).(ord := 0, queue := 0) ==
            CardRowOf(c2, nowTs, deckId, noteId).(ord := 0, queue := 0)
  {
  }
}
