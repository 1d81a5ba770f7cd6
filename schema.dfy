/** The `cards` table row and the draw modes shared by server and client. */
module Schema {

  /** The `type` column: 'image' or 'word'. */
  datatype CardType = Image | Word

  /** A row of the `cards` table: `id` is the serial primary key, `number`
      the position within its type. */
  datatype Card = Card(id: int, cardType: CardType, number: int, content: string, title: string)

  /** A row before insertion (`InsertCard`): everything but the id. */
  datatype NewCard = NewCard(cardType: CardType, number: int, content: string, title: string)

  /** The `mode` argument of `drawCards`. */
  datatype DrawMode = ImageMode | WordMode | PairMode

}
