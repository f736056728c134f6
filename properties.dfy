/** What the handlers guarantee about the store, stated over the handler
    functions. */
module HandlerProperties {
  import opened Entities
  import opened Tables
  import opened Handlers

  /** With the store invariant, the gallery is the quest's rows in table
      order: the ordering by id is the insertion order. */
  lemma ReadImagesInInsertionOrder(db: Db, questId: string)
    requires Valid(db)
    ensures ReadImages(db, questId) == ImagesReply(ImagesOf(db.images, questId))
    ensures StrictlyAscending(ReadImages(db, questId).images)
  {
    ImagesOfKeepsAscending(db.images, questId);
    SortByIdOfAscending(ImagesOf(db.images, questId));
  }

  /** A create for an id that is already stored changes neither table. */
  lemma CreateDuplicate(db: Db, data: CreateQuest)
    requires data.quest.id in db.quests
    ensures Create(db, data) == Outcome(db, MessageReply(QuestAlreadyExists))
  {
  }

  /** A create for a fresh id adds the quest row as supplied and appends one
      image per payload, in payload order, with ids above every existing
      image id; nothing else changes. */
  lemma CreateFresh(db: Db, data: CreateQuest)
    requires data.quest.id !in db.quests
    ensures var out := Create(db, data);
      && out.reply == MessageReply(CreatedSuccessfully)
      && out.after.quests == db.quests[data.quest.id := data.quest]
      && |out.after.images| == |db.images| + |data.images|
      && out.after.images[..|db.images|] == db.images
      && (forall k :: 0 <= k < |data.images| ==>
            out.after.images[|db.images| + k] == Image(db.nextImageId + k, data.quest.id, data.images[k]))
      && (Valid(db) ==> forall j, k :: 0 <= j < |db.images| <= k < |out.after.images| ==>
            db.images[j].id < out.after.images[k].id)
  {
    var after := Create(db, data).after;
    var added := NewImages(db.nextImageId, data.quest.id, data.images);
    assert after.images == db.images + added;
    assert forall k :: |db.images| <= k < |after.images| ==> after.images[k] == added[k - |db.images|];
  }

  /** Images are inserted only after their quest row, so create keeps the
      store invariant. */
  lemma CreatePreservesValid(db: Db, data: CreateQuest)
    requires Valid(db)
    ensures Valid(Create(db, data).after)
  {
    var id := data.quest.id;
    if id !in db.quests {
      var after := Create(db, data).after;
      var added := NewImages(db.nextImageId, id, data.images);
      assert after.images == db.images + added;
      forall i | 0 <= i < |after.images|
        ensures after.images[i].id < after.nextImageId
        ensures after.images[i].questId in after.quests
      {
        if i >= |db.images| {
          assert after.images[i] == added[i - |db.images|];
        }
      }
    }
  }

  /** Round trip: after a successful create, the gallery of the new quest
      is exactly the supplied payloads, in the order supplied. */
  lemma CreateThenReadImages(db: Db, data: CreateQuest)
    requires Valid(db) && data.quest.id !in db.quests
    ensures ReadImages(Create(db, data).after, data.quest.id)
            == ImagesReply(NewImages(db.nextImageId, data.quest.id, data.images))
    ensures Payloads(ReadImages(Create(db, data).after, data.quest.id).images) == data.images
  {
    var after := Create(db, data).after;
    CreatedRowsAreGallery(db, data);
    CreatePreservesValid(db, data);
    ReadImagesInInsertionOrder(after, data.quest.id);
    NewImagesGallery(db.nextImageId, data.quest.id, data.images);
  }

  /** After a fresh create, the rows of the new quest are exactly the rows
      the create inserted. */
  lemma CreatedRowsAreGallery(db: Db, data: CreateQuest)
    requires Valid(db) && data.quest.id !in db.quests
    ensures ImagesOf(Create(db, data).after.images, data.quest.id)
            == NewImages(db.nextImageId, data.quest.id, data.images)
  {
    var id := data.quest.id;
    var added := NewImages(db.nextImageId, id, data.images);
    assert Create(db, data).after.images == db.images + added;
    ImagesOfConcat(db.images, added, id);
    FreshQuestHasNoImages(db, id);
    NewImagesGallery(db.nextImageId, id, data.images);
  }

  lemma FreshQuestHasNoImages(db: Db, id: string)
    requires Valid(db) && id !in db.quests
    ensures ImagesOf(db.images, id) == []
  {
    ImagesOfNoneMatch(db.images, id);
  }

  /** The rows a create inserts all belong to its quest and carry its
      payloads in order. */
  lemma NewImagesGallery(firstId: int, id: string, payloads: seq<seq<byte>>)
    ensures ImagesOf(NewImages(firstId, id, payloads), id) == NewImages(firstId, id, payloads)
    ensures Payloads(NewImages(firstId, id, payloads)) == payloads
  {
    ImagesOfAllMatch(NewImages(firstId, id, payloads), id);
  }

  /** Round trip: after a successful create, reading the quest yields the
      record exactly as supplied. */
  lemma CreateThenReadQuest(db: Db, data: CreateQuest)
    requires data.quest.id !in db.quests
    ensures ReadQuest(Create(db, data).after, data.quest.id) == QuestReply(data.quest)
  {
  }

  /** A create leaves every other quest and its gallery as it was, so a
      gallery keeps its order whatever is created after it. */
  lemma CreateKeepsOthers(db: Db, data: CreateQuest, other: string)
    requires other != data.quest.id
    ensures ReadQuest(Create(db, data).after, other) == ReadQuest(db, other)
    ensures ReadImages(Create(db, data).after, other) == ReadImages(db, other)
  {
    var id := data.quest.id;
    if id !in db.quests {
      var after := Create(db, data).after;
      var added := NewImages(db.nextImageId, id, data.images);
      assert after.images == db.images + added;
      ImagesOfConcat(db.images, added, other);
      ImagesOfNoneMatch(added, other);
      assert ImagesOf(after.images, other) == ImagesOf(db.images, other);
    }
  }

  /** Creating the same quest twice: the second call reports a duplicate and
      the store is as the first call left it. */
  lemma CreateTwice(db: Db, data: CreateQuest)
    ensures var first := Create(db, data);
      Create(first.after, data) == Outcome(first.after, MessageReply(QuestAlreadyExists))
  {
  }

  /** An update of a stored quest overwrites artist, poem and next only: the
      row keeps its id, other rows and the image table are untouched. */
  lemma UpdateHit(db: Db, q: Quest)
    requires q.id in db.quests
    ensures var out := Update(db, q);
      && out.reply == MessageReply(UpdatedSuccessfully)
      && out.after.images == db.images
      && out.after.nextImageId == db.nextImageId
      && out.after.quests.Keys == db.quests.Keys
      && out.after.quests[q.id] == Quest(db.quests[q.id].id, q.artist, q.poem, q.next)
      && (forall k :: k in db.quests && k != q.id ==> out.after.quests[k] == db.quests[k])
  {
  }

  /** An update that matches no row changes nothing. */
  lemma UpdateMiss(db: Db, q: Quest)
    requires q.id !in db.quests
    ensures Update(db, q) == Outcome(db, MessageReply(NoQuestWithThatId))
  {
  }

  lemma UpdatePreservesValid(db: Db, q: Quest)
    requires Valid(db)
    ensures Valid(Update(db, q).after)
  {
  }

  /** After an update of a stored quest, reading it yields the new record,
      and every gallery reads as before. */
  lemma UpdateThenRead(db: Db, q: Quest, questId: string)
    requires Valid(db) && q.id in db.quests
    ensures ReadQuest(Update(db, q).after, q.id) == QuestReply(q)
    ensures ReadImages(Update(db, q).after, questId) == ReadImages(db, questId)
  {
  }

  /** The affected-row count of the update is the number of `quests` rows
      whose `id` column equals the given id. */
  lemma RowsMatchingCountsRows(db: Db, id: string)
    requires Valid(db)
    ensures RowsMatching(db, id) == |set k | k in db.quests && db.quests[k].id == id|
  {
    var rows := set k | k in db.quests && db.quests[k].id == id;
    if id in db.quests {
      assert rows == {id};
    } else {
      assert rows == {};
    }
  }

  /** `next` is stored as given: create accepts a successor that names no
      stored quest, even on an empty store. */
  lemma DanglingNextOnCreate(db: Db, data: CreateQuest, successor: string)
    requires data.quest.id !in db.quests && data.quest.next == Some(successor)
    requires successor !in db.quests
    ensures Create(db, data).reply == MessageReply(CreatedSuccessfully)
    ensures ReadQuest(Create(db, data).after, data.quest.id).quest.next == Some(successor)
  {
  }

  /** Update, too, stores a successor that names no stored quest. */
  lemma DanglingNextOnUpdate(db: Db, q: Quest, successor: string)
    requires q.id in db.quests && q.next == Some(successor) && successor !in db.quests
    ensures Update(db, q).reply == MessageReply(UpdatedSuccessfully)
    ensures ReadQuest(Update(db, q).after, q.id).quest.next == Some(successor)
  {
  }
}
