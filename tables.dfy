/** The two storage tables as values, and the queries the SQL statements
    of the handlers run against them. */
module Tables {
  import opened Entities

  /** The `quests` table keyed by id, the `images` table in insertion order,
      and the id storage will assign to the next inserted image row. */
  datatype Db = Db(quests: map<string, Quest>, images: seq<Image>, nextImageId: int)

  /** The store before any request: both tables empty, row ids starting at 1. */
  function Empty(): (db: Db)
    ensures db.quests == map[] && db.images == [] && db.nextImageId == 1
  {
    Db(map[], [], 1)
  }

  predicate StrictlyAscending(s: seq<Image>) {
    forall i, j :: 0 <= i < j < |s| ==> s[i].id < s[j].id
  }

  predicate Ascending(s: seq<Image>) {
    forall i, j :: 0 <= i < j < |s| ==> s[i].id <= s[j].id
  }

  /** What every reachable store satisfies: a quest row is filed under its
      own id, image ids increase along the table and stay below the next id
      to be assigned, and every image belongs to a stored quest. */
  predicate Valid(db: Db) {
    && (forall k :: k in db.quests ==> db.quests[k].id == k)
    && StrictlyAscending(db.images)
    && (forall i :: 0 <= i < |db.images| ==> db.images[i].id < db.nextImageId)
    && (forall i :: 0 <= i < |db.images| ==> db.images[i].questId in db.quests)
  }

  /** `WHERE quest_id = $1` on the images table, in table order. */
  function ImagesOf(images: seq<Image>, questId: string): (r: seq<Image>)
    ensures forall im :: im in r <==> im in images && im.questId == questId
    ensures |r| <= |images|
  {
    if images == [] then []
    else (if images[0].questId == questId then [images[0]] else []) + ImagesOf(images[1..], questId)
  }

  /** Places `x` after every image of `s` whose id is not greater. */
  function InsertById(x: Image, s: seq<Image>): (r: seq<Image>)
    requires Ascending(s)
    ensures Ascending(r)
    ensures multiset(r) == multiset(s) + multiset{x}
  {
    if s == [] || x.id <= s[0].id then [x] + s
    else
      var rest := InsertById(x, s[1..]);
      HeadIsLeast(s);
      LowerBoundKept(s[0].id, x, s[1..], rest);
      ConsAscending(s[0], rest);
      assert s == [s[0]] + s[1..];
      [s[0]] + rest
  }

  lemma HeadIsLeast(s: seq<Image>)
    requires Ascending(s) && s != []
    ensures forall y :: y in s[1..] ==> s[0].id <= y.id
  {
    forall y | y in s[1..] ensures s[0].id <= y.id {
      var k :| 0 <= k < |s[1..]| && s[1..][k] == y;
      assert s[k + 1] == y;
    }
  }

  lemma ConsAscending(head: Image, s: seq<Image>)
    requires Ascending(s) && forall y :: y in s ==> head.id <= y.id
    ensures Ascending([head] + s)
  {
    var r := [head] + s;
    forall i, j | 0 <= i < j < |r| ensures r[i].id <= r[j].id {
      assert r[j] == s[j - 1];
      if i > 0 {
        assert r[i] == s[i - 1];
      }
    }
  }

  /** A lower bound of `s` and of `x` bounds every row of a permutation of
      `s` plus `x`. */
  lemma LowerBoundKept(lo: int, x: Image, s: seq<Image>, r: seq<Image>)
    requires lo <= x.id && forall y :: y in s ==> lo <= y.id
    requires multiset(r) == multiset(s) + multiset{x}
    ensures forall y :: y in r ==> lo <= y.id
  {
    forall y | y in r ensures lo <= y.id {
      assert y in multiset(r);
      assert y in multiset(s) || y == x;
    }
  }

  /** `ORDER BY id ASC`: an insertion sort on image ids. */
  function SortById(s: seq<Image>): (r: seq<Image>)
    ensures Ascending(r)
    ensures multiset(r) == multiset(s)
  {
    if s == [] then []
    else
      assert s == [s[0]] + s[1..];
      InsertById(s[0], SortById(s[1..]))
  }

  /** The rows the create handler's loop inserts: the k-th payload becomes an
      image of `questId` with id `firstId + k`. */
  function NewImages(firstId: int, questId: string, payloads: seq<seq<byte>>): (r: seq<Image>)
    ensures |r| == |payloads|
    ensures StrictlyAscending(r)
    ensures forall im :: im in r ==> im.questId == questId && firstId <= im.id < firstId + |payloads|
  {
    seq(|payloads|, k requires 0 <= k < |payloads| => Image(firstId + k, questId, payloads[k]))
  }

  /** The `data` column of a sequence of image rows. */
  function Payloads(s: seq<Image>): (r: seq<seq<byte>>)
    ensures |r| == |s|
  {
    seq(|s|, k requires 0 <= k < |s| => s[k].data)
  }

  lemma {:induction false} ImagesOfConcat(a: seq<Image>, b: seq<Image>, questId: string)
    ensures ImagesOf(a + b, questId) == ImagesOf(a, questId) + ImagesOf(b, questId)
  {
    if a != [] {
      var ab := a + b;
      assert ab != [] && ab[0] == a[0] && ab[1..] == a[1..] + b;
      var head := if a[0].questId == questId then [a[0]] else [];
      calc {
        ImagesOf(ab, questId);
        head + ImagesOf(a[1..] + b, questId);
        { ImagesOfConcat(a[1..], b, questId); }
        head + (ImagesOf(a[1..], questId) + ImagesOf(b, questId));
        (head + ImagesOf(a[1..], questId)) + ImagesOf(b, questId);
        ImagesOf(a, questId) + ImagesOf(b, questId);
      }
    } else {
      assert a + b == b;
    }
  }

  lemma {:induction false} ImagesOfNoneMatch(s: seq<Image>, questId: string)
    requires forall i :: 0 <= i < |s| ==> s[i].questId != questId
    ensures ImagesOf(s, questId) == []
  {
    if s != [] {
      ImagesOfNoneMatch(s[1..], questId);
    }
  }

  lemma {:induction false} ImagesOfAllMatch(s: seq<Image>, questId: string)
    requires forall i :: 0 <= i < |s| ==> s[i].questId == questId
    ensures ImagesOf(s, questId) == s
  {
    if s != [] {
      ImagesOfAllMatch(s[1..], questId);
      assert s == [s[0]] + s[1..];
    }
  }

  /** Filtering keeps the relative order of the rows it keeps. */
  lemma {:induction false} ImagesOfKeepsAscending(s: seq<Image>, questId: string)
    requires StrictlyAscending(s)
    ensures StrictlyAscending(ImagesOf(s, questId))
  {
    if s != [] {
      ImagesOfKeepsAscending(s[1..], questId);
      var rest := ImagesOf(s[1..], questId);
      forall y | y in rest ensures s[0].id < y.id {
        var k :| 0 <= k < |s[1..]| && s[1..][k] == y;
        assert s[k + 1] == y;
      }
    }
  }

  /** On rows that are already in id order the sort changes nothing. */
  lemma {:induction false} SortByIdOfAscending(s: seq<Image>)
    requires Ascending(s)
    ensures SortById(s) == s
  {
    if s != [] {
      SortByIdOfAscending(s[1..]);
      assert s == [s[0]] + s[1..];
    }
  }
}
