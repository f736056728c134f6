/** The record shapes the quest service stores and replies with. */
module Entities {

  /** An octet of an image payload. */
  newtype byte = b: int | 0 <= b < 256

  datatype Option<+T> = None | Some(value: T)

  /** A quest: a narrative unit with an optional successor, keyed by a
      client-supplied id. `next` is the id of the successor quest; nothing
      requires it to name a stored quest. */
  datatype Quest = Quest(id: string, artist: string, poem: string, next: Option<string>)

  /** One image row: the storage-assigned id, the quest it belongs to and its
      opaque payload. */
  datatype Image = Image(id: int, questId: string, data: seq<byte>)

  /** The status body the handlers reply with. */
  datatype Message = Message(success: bool, message: string)

  /** The body of a create request: the quest row and its initial gallery,
      one payload per image. */
  datatype CreateQuest = CreateQuest(quest: Quest, images: seq<seq<byte>>)

  /** Every reply body: a bare quest, a gallery, or a status message. */
  datatype Reply =
    | QuestReply(quest: Quest)
    | ImagesReply(images: seq<Image>)
    | MessageReply(msg: Message)

  const QuestNotFound := Message(false, "quest not found")
  const QuestAlreadyExists := Message(false, "quest already exists")
  const CreatedSuccessfully := Message(true, "created successfully")
  const UpdatedSuccessfully := Message(true, "updated successfully")
  const NoQuestWithThatId := Message(false, "no quest with that id found")
}
