/** What each of the four quest handlers does to the store and replies,
    as functions of the store's state before the request. */
module Handlers {
  import opened Entities
  import opened Tables

  /** The store after a request, and the reply body. */
  datatype Outcome = Outcome(after: Db, reply: Reply)

  /** GET /quest: look the quest up by id; a miss replies with a message. */
  function ReadQuest(db: Db, id: string): (r: Reply)
    ensures r.QuestReply? <==> id in db.quests
    ensures r.QuestReply? ==> r.quest == db.quests[id]
    ensures !r.QuestReply? ==> r == MessageReply(QuestNotFound)
  {
    if id in db.quests then QuestReply(db.quests[id]) else MessageReply(QuestNotFound)
  }

  /** GET /quest/images: the images of one quest, ordered by ascending id;
      no images is an empty gallery, never a message. */
  function ReadImages(db: Db, questId: string): (r: Reply)
    ensures r.ImagesReply?
    ensures forall im :: im in r.images <==> im in db.images && im.questId == questId
    ensures multiset(r.images) == multiset(ImagesOf(db.images, questId))
    ensures Ascending(r.images)
  {
    var matching := ImagesOf(db.images, questId);
    var sorted := SortById(matching);
    assert forall im :: im in sorted <==> im in multiset(matching);
    ImagesReply(sorted)
  }

  /** POST /quest: refuse a duplicate id; otherwise insert the quest row,
      then one image row per payload, in payload order. */
  function Create(db: Db, data: CreateQuest): (out: Outcome)
    ensures out.reply.MessageReply?
    ensures out.reply.msg.success <==> data.quest.id !in db.quests
    ensures out.after.quests.Keys == db.quests.Keys + {data.quest.id}
    ensures forall k :: k in db.quests ==> out.after.quests[k] == db.quests[k]
    ensures db.images <= out.after.images
    ensures !out.reply.msg.success ==> out.after == db
  {
    var id := data.quest.id;
    if id in db.quests then Outcome(db, MessageReply(QuestAlreadyExists))
    else
      var quests := db.quests[id := data.quest];
      var images := db.images + NewImages(db.nextImageId, id, data.images);
      Outcome(Db(quests, images, db.nextImageId + |data.images|), MessageReply(CreatedSuccessfully))
  }

  /** The number of rows `UPDATE quests ... WHERE id = $4` matches. */
  function RowsMatching(db: Db, id: string): (n: nat)
    ensures n <= 1
    ensures n > 0 <==> id in db.quests
  {
    if id in db.quests then 1 else 0
  }

  /** PUT /quest: overwrite artist, poem and next of the row with the given
      id, and reply according to the number of rows the write matched. */
  function Update(db: Db, q: Quest): (out: Outcome)
    ensures out.reply.MessageReply?
    ensures out.reply.msg.success <==> q.id in db.quests
    ensures out.after.images == db.images && out.after.nextImageId == db.nextImageId
    ensures out.after.quests.Keys == db.quests.Keys
    ensures forall k :: k in db.quests ==> out.after.quests[k].id == db.quests[k].id
    ensures forall k :: k in db.quests && k != q.id ==> out.after.quests[k] == db.quests[k]
    ensures !out.reply.msg.success ==> out.after == db
  {
    if RowsMatching(db, q.id) > 0 then
      var row := db.quests[q.id].(artist := q.artist, poem := q.poem, next := q.next);
      Outcome(db.(quests := db.quests[q.id := row]), MessageReply(UpdatedSuccessfully))
    else Outcome(db, MessageReply(NoQuestWithThatId))
  }
}
