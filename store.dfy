/** The store the handlers share, updated in place the way the create and
    update handlers issue their SQL statements. */
module QuestStore {
  import opened Entities
  import opened Tables
  import opened Handlers
  import HandlerProperties

  class Store {
    var quests: map<string, Quest>
    var images: seq<Image>
    var nextImageId: int

    /** The two tables as a value. */
    function State(): (db: Db)
      reads this
      ensures db.quests == quests && db.images == images && db.nextImageId == nextImageId
    {
      Db(quests, images, nextImageId)
    }

    ghost predicate Valid()
      reads this
    {
      Tables.Valid(State())
    }

    constructor ()
      ensures Valid() && State() == Empty()
    {
      quests, images, nextImageId := map[], [], 1;
    }

    /** POST /quest: the duplicate check, the quest insert, then one image
        insert per payload. */
    method CreateQuest(data: CreateQuest) returns (reply: Reply)
      modifies this
      ensures Outcome(State(), reply) == Create(old(State()), data)
      ensures old(Valid()) ==> Valid()
      ensures old(data.quest.id in quests) ==> unchanged(this)
      ensures old(data.quest.id !in quests) ==>
        && quests == old(quests)[data.quest.id := data.quest]
        && images == old(images) + NewImages(old(nextImageId), data.quest.id, data.images)
    {
      ghost var before := State();
      var id := data.quest.id;
      if id in quests {
        return MessageReply(QuestAlreadyExists);
      }
      quests := quests[id := data.quest];
      for i := 0 to |data.images|
        invariant quests == before.quests[id := data.quest]
        invariant images == before.images + NewImages(before.nextImageId, id, data.images[..i])
        invariant nextImageId == before.nextImageId + i
      {
        assert NewImages(before.nextImageId, id, data.images[..i + 1])
            == NewImages(before.nextImageId, id, data.images[..i]) + [Image(nextImageId, id, data.images[i])];
        images := images + [Image(nextImageId, id, data.images[i])];
        nextImageId := nextImageId + 1;
      }
      assert data.images[..|data.images|] == data.images;
      reply := MessageReply(CreatedSuccessfully);
      if old(Valid()) {
        HandlerProperties.CreatePreservesValid(before, data);
      }
    }

    /** PUT /quest: overwrite the text fields of the matching row, then reply
        according to the number of rows the write matched. */
    method UpdateQuest(q: Quest) returns (reply: Reply)
      modifies this
      ensures Outcome(State(), reply) == Update(old(State()), q)
      ensures old(Valid()) ==> Valid()
      ensures images == old(images) && nextImageId == old(nextImageId)
      ensures old(q.id !in quests) ==> quests == old(quests)
      ensures q.id in quests ==> quests[q.id].id == old(quests[q.id].id)
    {
      var rows := 0;
      if q.id in quests {
        quests := quests[q.id := quests[q.id].(artist := q.artist, poem := q.poem, next := q.next)];
        rows := 1;
      }
      if rows > 0 {
        reply := MessageReply(UpdatedSuccessfully);
      } else {
        reply := MessageReply(NoQuestWithThatId);
      }
    }
  }

  /** A client of the store: a quest with a dangling successor and two
      images is created, read back, created again and updated. */
  method Walkthrough(a: seq<byte>, b: seq<byte>)
  {
    var store := new Store();
    var quest := Quest("q1", "ann", "a poem", Some("nowhere"));
    var data := CreateQuest(quest, [a, b]);
    var before := store.State();
    var reply := store.CreateQuest(data);
    assert reply == MessageReply(CreatedSuccessfully);
    HandlerProperties.CreateThenReadImages(before, data);
    assert Payloads(ReadImages(store.State(), "q1").images) == [a, b];
    assert ReadQuest(store.State(), "q1") == QuestReply(quest);

    var first := store.State();
    reply := store.CreateQuest(data);
    assert reply == MessageReply(QuestAlreadyExists) && store.State() == first;

    reply := store.UpdateQuest(Quest("q2", "bo", "", None));
    assert reply == MessageReply(NoQuestWithThatId) && store.State() == first;

    reply := store.UpdateQuest(Quest("q1", "bo", "another poem", None));
    assert reply == MessageReply(UpdatedSuccessfully);
    assert ReadQuest(store.State(), "q1") == QuestReply(Quest("q1", "bo", "another poem", None));
    assert store.images == first.images;
  }
}
