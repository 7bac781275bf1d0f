/** Keyset pagination of a room's messages. Ids are uuids, compared as numbers; the nil uuid means no cursor. */
module PagingModel {
  import opened Domain

  type MsgId = nat

  const NIL: MsgId := 0
  const DEFAULT_PAGE_SIZE := 50

  /** `at` is created_at, the clock reading of the send. */
  datatype Message = Message(room: RoomId, content: string, edited: bool, at: nat)

  type Messages = map<MsgId, Message>

  /** The limit clamp in front of the page query. */
  function Clamp(limit: int): nat {
    if limit <= 0 || limit > 100 then DEFAULT_PAGE_SIZE else limit
  }

  /** The WHERE clause. */
  predicate Matches(s: Messages, room: RoomId, cursor: MsgId, id: MsgId) {
    id in s && s[id].room == room && (cursor == NIL || id < cursor)
  }

  predicate Descending(ids: seq<MsgId>) {
    forall i, j :: 0 <= i < j < |ids| ==> ids[j] < ids[i]
  }

  /** ids is what `WHERE ... ORDER BY id DESC LIMIT` yields: matching ids, greatest first, as many as allowed, and a
      matching id is left out only for lack of space and only if it is below the whole page. */
  ghost predicate IsPage(s: Messages, room: RoomId, cursor: MsgId, limit: nat, ids: seq<MsgId>) {
    && |ids| <= limit
    && Descending(ids)
    && (forall id <- ids :: Matches(s, room, cursor, id))
    && (forall id | id in s && Matches(s, room, cursor, id) && id !in ids ::
          |ids| == limit && forall k :: 0 <= k < |ids| ==> id < ids[k])
  }

  /** There is only one page. */
  lemma {:induction false} PageIsUnique(s: Messages, room: RoomId, cursor: MsgId, limit: nat, a: seq<MsgId>,
                                        b: seq<MsgId>)
    requires IsPage(s, room, cursor, limit, a) && IsPage(s, room, cursor, limit, b)
    ensures a == b
  {
    PagePrefix(s, room, cursor, limit, a, b, if |a| < |b| then |a| else |b|);
    NoLonger(s, room, cursor, limit, a, b);
    NoLonger(s, room, cursor, limit, b, a);
  }

  lemma DescendingIsFresh(ids: seq<MsgId>, n: nat)
    requires Descending(ids) && n < |ids|
    ensures ids[n] in ids && ids[n] !in ids[..n]
  {}

  /** A page that starts with another page is not longer. */
  lemma NoLonger(s: Messages, room: RoomId, cursor: MsgId, limit: nat, a: seq<MsgId>, b: seq<MsgId>)
    requires IsPage(s, room, cursor, limit, a) && IsPage(s, room, cursor, limit, b)
    requires |a| < |b| ==> a == b[..|a|]
    ensures |b| <= |a|
  {
    if |a| < |b| {
      DescendingIsFresh(b, |a|);
    }
  }

  lemma {:induction false} PagePrefix(s: Messages, room: RoomId, cursor: MsgId, limit: nat, a: seq<MsgId>,
                                      b: seq<MsgId>, n: nat)
    requires IsPage(s, room, cursor, limit, a) && IsPage(s, room, cursor, limit, b)
    requires n <= |a| && n <= |b|
    ensures a[..n] == b[..n]
    decreases n
  {
    if n > 0 {
      PagePrefix(s, room, cursor, limit, a, b, n - 1);
      NotAbove(s, room, cursor, limit, a, b, n - 1);
      NotAbove(s, room, cursor, limit, b, a, n - 1);
      assert a[..n] == a[..n - 1] + [a[n - 1]] && b[..n] == b[..n - 1] + [b[n - 1]];
    }
  }

  /** A matching id above the n-th of a page is listed before it. */
  lemma AboveIsListed(s: Messages, room: RoomId, cursor: MsgId, limit: nat, ids: seq<MsgId>, n: nat, id: MsgId)
    requires IsPage(s, room, cursor, limit, ids) && n < |ids| && Matches(s, room, cursor, id) && ids[n] < id
    ensures id in ids[..n]
  {
    assert id in ids;
    var i :| 0 <= i < |ids| && ids[i] == id;
    assert ids[..n][i] == id;
  }

  /** After a common prefix the next id of one page is not above the next id of the other. */
  lemma NotAbove(s: Messages, room: RoomId, cursor: MsgId, limit: nat, a: seq<MsgId>, b: seq<MsgId>, n: nat)
    requires IsPage(s, room, cursor, limit, a) && IsPage(s, room, cursor, limit, b)
    requires n < |a| && n < |b| && a[..n] == b[..n]
    ensures a[n] <= b[n]
  {
    DescendingIsFresh(a, n);
    if b[n] < a[n] {
      AboveIsListed(s, room, cursor, limit, b, n, a[n]);
    }
  }

  // ---------- Pages and changes of the store

  /** An edit changes no page. */
  lemma PageAfterEdit(s: Messages, id: MsgId, content: string, room: RoomId, cursor: MsgId, limit: nat, ids: seq<MsgId>)
    requires id in s
    ensures IsPage(s, room, cursor, limit, ids)
       <==> IsPage(s[id := s[id].(content := content, edited := true)], room, cursor, limit, ids)
  {
    var s' := s[id := s[id].(content := content, edited := true)];
    assert forall x :: Matches(s, room, cursor, x) <==> Matches(s', room, cursor, x);
  }

  /** A deletion takes its message out of the page and nothing else; a page that did not list it stays as it is. */
  lemma PageAfterDelete(s: Messages, id: MsgId, room: RoomId, cursor: MsgId, limit: nat, a: seq<MsgId>, b: seq<MsgId>)
    requires IsPage(s, room, cursor, limit, a) && IsPage(s - {id}, room, cursor, limit, b)
    ensures id !in b
    ensures forall x <- a | x != id :: x in b
    ensures id !in a ==> b == a
  {
    var s' := s - {id};
    assert forall x :: Matches(s', room, cursor, x) <==> Matches(s, room, cursor, x) && x != id;
    forall x <- a | x != id ensures x in b {
      if x !in b { FullPageAbove(s, s', room, cursor, limit, a, b, x); }
    }
    if id !in a {
      assert IsPage(s', room, cursor, limit, a);
      PageIsUnique(s', room, cursor, limit, a, b);
    }
  }

  /** A full page of fewer messages that lies above x leaves no place for x on a page of more. */
  lemma FullPageAbove(s: Messages, s': Messages, room: RoomId, cursor: MsgId, limit: nat, a: seq<MsgId>,
                      b: seq<MsgId>, x: MsgId)
    requires IsPage(s, room, cursor, limit, a) && IsPage(s', room, cursor, limit, b)
    requires forall y :: Matches(s', room, cursor, y) ==> Matches(s, room, cursor, y)
    requires |b| == limit && forall k :: 0 <= k < |b| ==> x < b[k]
    ensures x !in a
  {
    if x in a {
      var i :| 0 <= i < |a| && a[i] == x;
      forall y <- b ensures y in Listed(a[..i]) {
        AboveIsListed(s, room, cursor, limit, a, i, y);
      }
      ListedSize(a[..i]);
      DescendingSize(b, Listed(a[..i]));
    }
  }

  ghost function Listed(ids: seq<MsgId>): set<MsgId> {
    set y | y in ids
  }

  lemma {:induction false} ListedSize(ids: seq<MsgId>)
    ensures |Listed(ids)| <= |ids|
    decreases |ids|
  {
    if ids != [] {
      var n := |ids| - 1;
      ListedSize(ids[..n]);
      assert ids == ids[..n] + [ids[n]];
      assert Listed(ids) == Listed(ids[..n]) + {ids[n]};
    }
  }

  /** A new message enters at most its own room's pages, below the cursor, and reorders nothing. */
  lemma PageAfterSave(s: Messages, id: MsgId, m: Message, room: RoomId, cursor: MsgId, limit: nat, a: seq<MsgId>,
                      b: seq<MsgId>)
    requires id !in s && IsPage(s, room, cursor, limit, a) && IsPage(s[id := m], room, cursor, limit, b)
    ensures forall x <- b | x != id :: x in a
    ensures m.room != room || (cursor != NIL && cursor <= id) ==> b == a
  {
    assert s[id := m] - {id} == s;
    PageAfterDelete(s[id := m], id, room, cursor, limit, b, a);
    if m.room != room || (cursor != NIL && cursor <= id) { assert !Matches(s[id := m], room, cursor, id); }
  }

  // ---------- Newest first ----------

  /** No message is younger than one listed before it. */
  ghost predicate FallsInTime(s: Messages, ids: seq<MsgId>) {
    forall i, j | 0 <= i < j < |ids| && ids[i] in s && ids[j] in s :: s[ids[j]].at <= s[ids[i]].at
  }

  /** What the comment on ListBefore promises of a page: newest first, and the latest of the messages that match. */
  ghost predicate NewestFirst(s: Messages, room: RoomId, cursor: MsgId, ids: seq<MsgId>) {
    && FallsInTime(s, ids)
    && forall id, x | Matches(s, room, cursor, id) && id !in ids && x in ids && x in s :: s[id].at <= s[x].at
  }

  /** Of two messages of the room below the cursor, the one with the greater id is not older. */
  ghost predicate RisesWithTime(s: Messages, room: RoomId, cursor: MsgId) {
    forall a, b | Matches(s, room, cursor, a) && Matches(s, room, cursor, b) && a < b :: s[a].at <= s[b].at
  }

  lemma RisingPage(s: Messages, room: RoomId, cursor: MsgId, limit: nat, ids: seq<MsgId>)
    requires RisesWithTime(s, room, cursor) && IsPage(s, room, cursor, limit, ids)
    ensures NewestFirst(s, room, cursor, ids)
  {
    forall i, j | 0 <= i < j < |ids| ensures ids[i] in s && ids[j] in s && s[ids[j]].at <= s[ids[i]].at {
      assert ids[i] in ids && ids[j] in ids;
      assert Matches(s, room, cursor, ids[i]) && Matches(s, room, cursor, ids[j]);
    }
  }

  ghost function Matching(s: Messages, room: RoomId, cursor: MsgId): set<MsgId> {
    set id | id in s && Matches(s, room, cursor, id)
  }

  lemma {:induction false} Maximum(ids: set<MsgId>) returns (max: MsgId)
    requires ids != {}
    ensures max in ids && forall id <- ids :: id <= max
    decreases |ids|
  {
    max :| max in ids;
    if ids != {max} {
      var other := Maximum(ids - {max});
      assert forall id <- ids :: id == max || id in ids - {max};
      max := if other > max then other else max;
    } else {
      assert forall id <- ids :: id == max;
    }
  }

  lemma Prepended(max: MsgId, rest: seq<MsgId>)
    requires Descending(rest) && forall id <- rest :: id < max
    ensures Descending([max] + rest) && Listed([max] + rest) == Listed(rest) + {max}
  {
    var ids := [max] + rest;
    forall i, j | 0 <= i < j < |ids| ensures ids[j] < ids[i] {
      assert ids[j] == rest[j - 1] && rest[j - 1] in rest;
    }
    forall id ensures id in ids <==> id == max || id in rest {}
  }

  lemma {:induction false} Arranged(all: set<MsgId>) returns (ids: seq<MsgId>)
    ensures Descending(ids) && Listed(ids) == all
    decreases |all|
  {
    if all == {} {
      ids := [];
    } else {
      var max := Maximum(all);
      var rest := Arranged(all - {max});
      forall id <- rest ensures id < max { assert id in Listed(rest); }
      Prepended(max, rest);
      ids := [max] + rest;
    }
  }

  /** A limit that is not exceeded yields all that match. */
  lemma WholePage(s: Messages, room: RoomId, cursor: MsgId) returns (ids: seq<MsgId>)
    ensures IsPage(s, room, cursor, |ids|, ids) && forall id | Matches(s, room, cursor, id) :: id in ids
  {
    var all := Matching(s, room, cursor);
    ids := Arranged(all);
    forall id ensures id in ids <==> Matches(s, room, cursor, id) { assert id in Listed(ids) <==> id in all; }
  }

  lemma WholePageRises(s: Messages, room: RoomId, cursor: MsgId, ids: seq<MsgId>)
    requires Descending(ids) && FallsInTime(s, ids)
    requires forall id | Matches(s, room, cursor, id) :: id in ids
    ensures RisesWithTime(s, room, cursor)
  {
    forall a, b | Matches(s, room, cursor, a) && Matches(s, room, cursor, b) && a < b ensures s[a].at <= s[b].at {
      var j :| 0 <= j < |ids| && ids[j] == a;
      var i :| 0 <= i < |ids| && ids[i] == b;
      assert i < j;
    }
  }

  /** The pages for a cursor are newest first and latest, whatever the limit, exactly if the ids below the cursor rise
      with the time of sending. Without a cursor these are all ids of the room. */
  lemma NewestFirstIff(s: Messages, room: RoomId, cursor: MsgId)
    ensures (forall limit: nat, ids | IsPage(s, room, cursor, limit, ids) :: NewestFirst(s, room, cursor, ids))
       <==> RisesWithTime(s, room, cursor)
  {
    if RisesWithTime(s, room, cursor) {
      forall limit: nat, ids | IsPage(s, room, cursor, limit, ids) ensures NewestFirst(s, room, cursor, ids) {
        RisingPage(s, room, cursor, limit, ids);
      }
    } else {
      var all := WholePage(s, room, cursor);
      if NewestFirst(s, room, cursor, all) { WholePageRises(s, room, cursor, all); }
    }
  }

  /** Two messages sent one after the other whose random ids fall: the older one counts as the latest. */
  lemma OlderIsListedFirst(room: RoomId)
    ensures var s := map[9 := Message(room, "first", false, 100)][4 := Message(room, "second", false, 200)];
            && IsPage(s, room, NIL, 1, [9]) && !NewestFirst(s, room, NIL, [9])
            && IsPage(s, room, NIL, 2, [9, 4]) && !NewestFirst(s, room, NIL, [9, 4])
  {
    var s := map[9 := Message(room, "first", false, 100)][4 := Message(room, "second", false, 200)];
    assert Matches(s, room, NIL, 4) && 9 in [9];
    assert s[[9, 4][1]].at > s[[9, 4][0]].at;
  }

  // ---------- How long a page is ----------

  function Smaller(a: nat, b: nat): nat {
    if a < b then a else b
  }

  /** A page is as long as the limit allows and the matching messages suffice for. */
  lemma PageLength(s: Messages, room: RoomId, cursor: MsgId, limit: nat, ids: seq<MsgId>)
    requires IsPage(s, room, cursor, limit, ids)
    ensures |ids| == Smaller(limit, |Matching(s, room, cursor)|)
  {
    var all := Matching(s, room, cursor);
    DescendingSize(ids, all);
    if forall id <- all :: id in ids {
      assert Listed(ids) == all;
      ListedSize(ids);
    }
  }

  /** What a reader gets for a limit: that many messages if the limit is between 1 and 100, else 50, and fewer only if
      there are fewer. */
  lemma HistoryLength(s: Messages, room: RoomId, cursor: MsgId, limit: int, ids: seq<MsgId>)
    requires IsPage(s, room, cursor, Clamp(limit), ids)
    ensures 1 <= limit <= 100 ==> |ids| == Smaller(limit, |Matching(s, room, cursor)|)
    ensures limit < 1 || 100 < limit ==> |ids| == Smaller(50, |Matching(s, room, cursor)|)
  {
    PageLength(s, room, cursor, Clamp(limit), ids);
  }

  // ---------- Reading a room page by page ----------

  /** The cursor in front of page k: none at first, then the last id of the page before. */
  ghost function CursorAt(pages: seq<seq<MsgId>>, k: nat): MsgId
    requires k <= |pages|
  {
    if k == 0 || pages[k - 1] == [] then NIL else pages[k - 1][|pages[k - 1]| - 1]
  }

  /** Pages read one after the other, page k from the store as it then was. Between two pages the store may have
      changed in any way. A reader asks for another page only after a page that was not empty. */
  ghost predicate Reading(stores: seq<Messages>, room: RoomId, limit: int, pages: seq<seq<MsgId>>) {
    && |stores| == |pages|
    && (forall k {:trigger stores[k]} | 0 <= k < |pages| ::
          NIL !in stores[k] && IsPage(stores[k], room, CursorAt(pages, k), Clamp(limit), pages[k]))
    && (forall k | 0 <= k < |pages| - 1 :: pages[k] != [])
  }

  /** The reader stopped because a page was short. */
  ghost predicate Finished(limit: int, pages: seq<seq<MsgId>>) {
    pages != [] && |pages[|pages| - 1]| < Clamp(limit)
  }

  /** The ids of the first n pages, in the order they were read. */
  ghost function Flat(pages: seq<seq<MsgId>>, n: nat): seq<MsgId>
    requires n <= |pages|
  {
    if n == 0 then [] else Flat(pages, n - 1) + pages[n - 1]
  }

  ghost function Listing(pages: seq<seq<MsgId>>): seq<MsgId> {
    Flat(pages, |pages|)
  }

  /** Appending a page that stays below what was listed so far. */
  lemma DescendsFurther(before: seq<MsgId>, page: seq<MsgId>)
    requires Descending(before) && Descending(page)
    requires forall i, j :: 0 <= i < |before| && 0 <= j < |page| ==> page[j] < before[i]
    ensures Descending(before + page)
    ensures page != [] ==> forall id <- before + page :: page[|page| - 1] <= id
  {
    var all := before + page;
    forall i, j | 0 <= i < j < |all| ensures all[j] < all[i] {
      if i < |before| && |before| <= j { assert page[j - |before|] < before[i]; }
    }
    if page != [] {
      assert all[|all| - 1] == page[|page| - 1];
    }
  }

  lemma {:induction false} FlatDescends(stores: seq<Messages>, room: RoomId, limit: int, pages: seq<seq<MsgId>>, n: nat)
    requires Reading(stores, room, limit, pages) && n <= |pages|
    ensures Descending(Flat(pages, n))
    ensures n > 0 && pages[n - 1] != [] ==> forall id <- Flat(pages, n) :: CursorAt(pages, n) <= id
  {
    if n > 0 {
      FlatDescends(stores, room, limit, pages, n - 1);
      BelowTheCursor(stores, room, limit, pages, n - 1);
      var before, page := Flat(pages, n - 1), pages[n - 1];
      assert NIL !in stores[n - 1] && Descending(page);
      forall i, j | 0 <= i < |before| && 0 <= j < |page| ensures page[j] < before[i] {
        assert before[i] in before && page[j] in page;
      }
      DescendsFurther(before, page);
    }
  }

  /** A later page lies below the last id of the page before. */
  lemma BelowTheCursor(stores: seq<Messages>, room: RoomId, limit: int, pages: seq<seq<MsgId>>, n: nat)
    requires Reading(stores, room, limit, pages) && n < |pages|
    ensures n > 0 ==> pages[n - 1] != [] && forall id <- pages[n] :: id < CursorAt(pages, n)
  {
    if n > 0 {
      assert CursorAt(pages, n) in pages[n - 1];
      assert CursorAt(pages, n) in stores[n - 1] && NIL !in stores[n - 1];
      assert NIL !in stores[n];
    }
  }

  ghost predicate AlwaysThere(stores: seq<Messages>, room: RoomId, id: MsgId) {
    forall k | 0 <= k < |stores| :: id in stores[k] && stores[k][id].room == room
  }

  /** id was in the room when the page that lists it was read. */
  ghost predicate ThereWhenRead(stores: seq<Messages>, room: RoomId, pages: seq<seq<MsgId>>, id: MsgId) {
    exists k :: 0 <= k < |stores| && k < |pages| && id in pages[k] && id in stores[k] && stores[k][id].room == room
  }

  /** A message of the room in every store read from has been listed already or is still ahead of the cursor. */
  lemma {:induction false} ListedOrAhead(stores: seq<Messages>, room: RoomId, limit: int, pages: seq<seq<MsgId>>,
                                         n: nat, id: MsgId)
    requires Reading(stores, room, limit, pages) && n <= |pages| && AlwaysThere(stores, room, id)
    ensures id in Flat(pages, n) || n == 0 || (|pages[n - 1]| == Clamp(limit) && id < CursorAt(pages, n))
  {
    if n > 0 {
      ListedOrAhead(stores, room, limit, pages, n - 1, id);
      OnPageOrAhead(stores, room, limit, pages, n, id);
    }
  }

  lemma OnPageOrAhead(stores: seq<Messages>, room: RoomId, limit: int, pages: seq<seq<MsgId>>, n: nat, id: MsgId)
    requires Reading(stores, room, limit, pages) && 0 < n <= |pages| && AlwaysThere(stores, room, id)
    requires n == 1 || id < CursorAt(pages, n - 1) || id in Flat(pages, n - 1)
    ensures id in Flat(pages, n) || (|pages[n - 1]| == Clamp(limit) && id < CursorAt(pages, n))
  {
    if id !in Flat(pages, n - 1) {
      assert id in stores[n - 1] && stores[n - 1][id].room == room;
      ListedOrPassed(stores[n - 1], room, CursorAt(pages, n - 1), Clamp(limit), pages[n - 1], id);
    }
  }

  /** A message below the cursor is on the page or below the whole full page. */
  lemma ListedOrPassed(s: Messages, room: RoomId, cursor: MsgId, limit: nat, ids: seq<MsgId>, id: MsgId)
    requires IsPage(s, room, cursor, limit, ids) && limit > 0
    ensures Matches(s, room, cursor, id) ==> id in ids || (|ids| == limit && id < ids[|ids| - 1])
  {}

  ghost predicate ExactlyOnce(ids: seq<MsgId>, id: MsgId) {
    exists k :: 0 <= k < |ids| && ids[k] == id && forall j | 0 <= j < |ids| && ids[j] == id :: j == k
  }

  lemma {:induction false} FlatIsListed(stores: seq<Messages>, room: RoomId, limit: int, pages: seq<seq<MsgId>>,
                                        n: nat, id: MsgId)
    requires Reading(stores, room, limit, pages) && n <= |pages| && id in Flat(pages, n)
    ensures ThereWhenRead(stores, room, pages, id)
  {
    if id in pages[n - 1] {
      assert Matches(stores[n - 1], room, CursorAt(pages, n - 1), id);
    } else {
      FlatIsListed(stores, room, limit, pages, n - 1, id);
    }
  }

  /** Paging is complete and stable: whatever is saved, edited or deleted between the pages, the ids come in strictly
      decreasing order, what is listed is listed once and was in the room when its page was read, and a message of the
      room that is there throughout a finished reading is listed. */
  lemma PagingIsStable(stores: seq<Messages>, room: RoomId, limit: int, pages: seq<seq<MsgId>>, id: MsgId)
    requires Reading(stores, room, limit, pages)
    ensures Descending(Listing(pages))
    ensures id in Listing(pages) ==> ExactlyOnce(Listing(pages), id) && ThereWhenRead(stores, room, pages, id)
    ensures Finished(limit, pages) && AlwaysThere(stores, room, id) ==> ExactlyOnce(Listing(pages), id)
  {
    FlatDescends(stores, room, limit, pages, |pages|);
    if Finished(limit, pages) && AlwaysThere(stores, room, id) {
      ListedOrAhead(stores, room, limit, pages, |pages|, id);
    }
    if id in Listing(pages) {
      FlatIsListed(stores, room, limit, pages, |pages|, id);
      OnceInDescending(Listing(pages), id);
    }
  }

  lemma OnceInDescending(ids: seq<MsgId>, id: MsgId)
    requires Descending(ids) && id in ids
    ensures ExactlyOnce(ids, id)
  {
    var k :| 0 <= k < |ids| && ids[k] == id;
    forall j | 0 <= j < |ids| && ids[j] == id ensures j == k {}
  }

  ghost function RoomIds(s: Messages, room: RoomId): set<MsgId> {
    set id | id in s && s[id].room == room
  }

  /** On a store that does not change a finished reading lists exactly the room's messages. */
  lemma FixedStoreComplete(s: Messages, stores: seq<Messages>, room: RoomId, limit: int, pages: seq<seq<MsgId>>)
    requires Reading(stores, room, limit, pages) && Finished(limit, pages)
    requires forall k | 0 <= k < |stores| :: stores[k] == s
    ensures Descending(Listing(pages)) && forall id :: id in Listing(pages) <==> id in RoomIds(s, room)
  {
    FlatDescends(stores, room, limit, pages, |pages|);
    forall id ensures id in Listing(pages) <==> id in RoomIds(s, room) {
      if id in RoomIds(s, room) { ListedOrAhead(stores, room, limit, pages, |pages|, id); }
      if id in Listing(pages) { FlatIsListed(stores, room, limit, pages, |pages|, id); }
    }
  }

  /** Scrolling back through a room that does not change, with any limit, shows the messages newest first exactly if
      all ids of the room rise with the time of sending. */
  lemma ScrollsNewestFirstIff(s: Messages, stores: seq<Messages>, room: RoomId, limit: int, pages: seq<seq<MsgId>>)
    requires Reading(stores, room, limit, pages) && Finished(limit, pages)
    requires forall k | 0 <= k < |stores| :: stores[k] == s
    ensures FallsInTime(s, Listing(pages)) <==> RisesWithTime(s, room, NIL)
  {
    var ids := Listing(pages);
    FixedStoreComplete(s, stores, room, limit, pages);
    if RisesWithTime(s, room, NIL) {
      forall i, j | 0 <= i < j < |ids| ensures ids[i] in s && ids[j] in s && s[ids[j]].at <= s[ids[i]].at {
        assert ids[i] in ids && ids[j] in ids;
        assert Matches(s, room, NIL, ids[i]) && Matches(s, room, NIL, ids[j]);
      }
    }
    if FallsInTime(s, ids) {
      forall id | Matches(s, room, NIL, id) ensures id in ids { assert id in RoomIds(s, room); }
      WholePageRises(s, room, NIL, ids);
    }
  }

  lemma {:induction false} DescendingSize(ids: seq<MsgId>, all: set<MsgId>)
    requires Descending(ids) && forall id <- ids :: id in all
    ensures |ids| <= |all|
    decreases |ids|
  {
    if ids != [] {
      var last := ids[|ids| - 1];
      DescendingSize(ids[..|ids| - 1], all - {last});
    }
  }

  lemma {:induction false} FullPages(limit: int, pages: seq<seq<MsgId>>, n: nat)
    requires n <= |pages| && forall k | 0 <= k < n :: |pages[k]| == Clamp(limit)
    ensures |Flat(pages, n)| == n * Clamp(limit)
  {
    if n > 0 {
      FullPages(limit, pages, n - 1);
      assert n * Clamp(limit) == (n - 1) * Clamp(limit) + Clamp(limit);
    }
  }

  /** ... and it comes to an end: n full pages need n times the limit of messages. */
  lemma FixedStoreTerminates(s: Messages, stores: seq<Messages>, room: RoomId, limit: int, pages: seq<seq<MsgId>>)
    requires Reading(stores, room, limit, pages) && forall k | 0 <= k < |stores| :: stores[k] == s
    requires forall k | 0 <= k < |pages| :: |pages[k]| == Clamp(limit)
    ensures |pages| * Clamp(limit) <= |RoomIds(s, room)|
  {
    FlatDescends(stores, room, limit, pages, |pages|);
    FullPages(limit, pages, |pages|);
    forall id <- Listing(pages) ensures id in RoomIds(s, room) {
      FlatIsListed(stores, room, limit, pages, |pages|, id);
    }
    DescendingSize(Listing(pages), RoomIds(s, room));
  }
}

/** The message repository and the history call as the server runs them. */
module MessageRepos {
  import opened Domain
  import opened PagingModel

  datatype Outcome = Done | NotFound | Conflict

  class MessageRepo {
    var rooms: set<RoomId>
    var messages: Messages

    constructor (rooms: set<RoomId>)
      ensures this.rooms == rooms && messages == map[]
    {
      this.rooms, messages := rooms, map[];
    }

    /** Refused by the primary key and by the foreign key to rooms. */
    method Save(id: MsgId, m: Message) returns (out: Outcome)
      modifies this`messages
      ensures out == if id in old(messages) || m.room !in rooms then Conflict else Done
      ensures messages == if out == Done then old(messages)[id := m] else old(messages)
    {
      if id in messages || m.room !in rooms {
        return Conflict;
      }
      messages := messages[id := m];
      out := Done;
    }

    method UpdateContent(id: MsgId, content: string) returns (out: Outcome)
      modifies this`messages
      ensures out == if id in old(messages) then Done else NotFound
      ensures messages == if out == Done
                          then old(messages)[id := old(messages)[id].(content := content, edited := true)]
                          else old(messages)
    {
      if id !in messages {
        return NotFound;
      }
      messages := messages[id := messages[id].(content := content, edited := true)];
      out := Done;
    }

    method Delete(id: MsgId)
      modifies this`messages
      ensures messages == old(messages) - {id}
    {
      messages := messages - {id};
    }

    /** Scans the rows of the page query in the order the database yields them. */
    method ListBefore(room: RoomId, cursor: MsgId, limit: nat) returns (ids: seq<MsgId>, msgs: seq<Message>)
      ensures IsPage(messages, room, cursor, limit, ids)
      ensures |msgs| == |ids| && forall k :: 0 <= k < |ids| ==> ids[k] in messages && msgs[k] == messages[ids[k]]
    {
      ids, msgs := [], [];
      var rest := set id | id in messages && Matches(messages, room, cursor, id);
      while rest != {} && |ids| < limit
        invariant |ids| <= limit && Descending(ids)
        invariant forall id <- ids :: Matches(messages, room, cursor, id)
        invariant forall id <- rest :: Matches(messages, room, cursor, id) && forall k :: 0 <= k < |ids| ==> id < ids[k]
        invariant forall id | id in messages && Matches(messages, room, cursor, id) :: id in rest || id in ids
        invariant |msgs| == |ids| && forall k :: 0 <= k < |ids| ==> ids[k] in messages && msgs[k] == messages[ids[k]]
        decreases |rest|
      {
        var id := Greatest(rest);
        ids, msgs, rest := ids + [id], msgs + [messages[id]], rest - {id};
      }
    }

    static method Greatest(ids: set<MsgId>) returns (max: MsgId)
      requires ids != {}
      ensures max in ids && forall other <- ids :: other <= max
    {
      max :| max in ids;
      var todo := ids - {max};
      while todo != {}
        invariant todo <= ids && max in ids
        invariant forall other <- ids :: other in todo || other <= max
        decreases |todo|
      {
        var id :| id in todo;
        if id > max {
          max := id;
        }
        todo := todo - {id};
      }
    }

    /** The service's History: any limit is accepted, and one that is not between 1 and 100 counts as 50. */
    method History(room: RoomId, cursor: MsgId, limit: int) returns (ids: seq<MsgId>, msgs: seq<Message>)
      ensures IsPage(messages, room, cursor, Clamp(limit), ids)
      ensures IsPage(messages, room, cursor, if 1 <= limit <= 100 then limit else 50, ids)
      ensures |ids| == Smaller(if 1 <= limit <= 100 then limit else 50, |Matching(messages, room, cursor)|)
      ensures |msgs| == |ids| && forall k :: 0 <= k < |ids| ==> ids[k] in messages && msgs[k] == messages[ids[k]]
    {
      var size := limit;
      if size <= 0 || size > 100 {
        size := DEFAULT_PAGE_SIZE;
      }
      ids, msgs := ListBefore(room, cursor, size);
      HistoryLength(messages, room, cursor, limit, ids);
    }
  }
}
