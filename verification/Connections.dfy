/**
 Draining the nested connections of Shopify's answers, and what the bit that says
 "this is all of it" allows.

 The server is any function of the call number and the cursor that tells the truth
 about one list: it may fail, answer with nothing, cut pages short or withhold the
 cursor, but what it says of the list is so.
 */
module Connections {
  import opened Options

  const MAX_NESTED_PAGES := 20

  // A cursor stands for the position after the node it was given with.
  type Cursor = nat

  datatype PageInfo = PageInfo(hasNextPage: bool, endCursor: Option<Cursor>)

  datatype Page<T> = Page(nodes: Option<seq<T>>, info: Option<PageInfo>)

  /** An exception, or an answer whose connection may be missing. */
  datatype Reply<T> = Thrown | Answer(page: Option<Page<T>>)

  type Server<!T> = (nat, Option<Cursor>) -> Reply<T>

  /** The page is a stretch of the list from `from` on, and its info is right about the rest. */
  ghost predicate Truthful<T>(all: seq<T>, from: nat, page: Page<T>) {
    var nodes := page.nodes.GetOr([]);
    && from + |nodes| <= |all|
    && nodes == all[from..from + |nodes|]
    && (page.info.Some? ==>
          && (page.info.value.hasNextPage <==> from + |nodes| < |all|)
          && (page.info.value.endCursor.Some? ==> page.info.value.endCursor.value == from + |nodes|))
  }

  ghost predicate TruthfulReply<T>(all: seq<T>, from: nat, reply: Reply<T>) {
    reply.Answer? && reply.page.Some? ==> Truthful(all, from, reply.page.value)
  }

  ghost predicate Consistent<T>(all: seq<T>, server: Server<T>) {
    forall k: nat, after: Option<Cursor> :: after.GetOr(0) <= |all| ==>
      TruthfulReply(all, after.GetOr(0), server(k, after))
  }

  /** No failure, a full page, and the cursor whenever there is more. */
  ghost predicate GenerousReply<T>(all: seq<T>, from: nat, reply: Reply<T>) {
    && reply.Answer? && reply.page.Some?
    && reply.page.value.nodes.Some? && reply.page.value.info.Some?
    && |reply.page.value.nodes.value| == (if |all| - from <= 250 then |all| - from else 250)
    && !CursorWithheld(reply.page.value.info)
  }

  ghost predicate Generous<T>(all: seq<T>, server: Server<T>) {
    forall k: nat, after: Option<Cursor> :: after.GetOr(0) <= |all| ==>
      GenerousReply(all, after.GetOr(0), server(k, after))
  }

  /** More was announced without the cursor to ask for it. */
  predicate CursorWithheld(info: Option<PageInfo>) {
    info.Some? && info.value.hasNextPage && info.value.endCursor.None?
  }

  /** `drainConnection`: page after page from the cursor, up to the ceiling. */
  method Drain<T>(server: Server<T>, start: Option<Cursor>, ghost all: seq<T>)
    returns (nodes: seq<T>, complete: bool, calls: nat)
    requires Consistent(all, server) && start.GetOr(0) <= |all|
    ensures calls <= 20
    ensures var from := start.GetOr(0);
      && from + |nodes| <= |all|
      && nodes == all[from..from + |nodes|]
      && (complete ==> from + |nodes| == |all|)
      && (Generous(all, server) ==>
            (complete <==> |all| - from <= 5_000))
  {
    ghost var from := start.GetOr(0);
    nodes := [];
    var after := start;
    var page := 0;
    while page < MAX_NESTED_PAGES
      invariant 0 <= page <= MAX_NESTED_PAGES
      invariant from + |nodes| <= |all| && nodes == all[from..from + |nodes|]
      invariant after.GetOr(0) == from + |nodes|
      invariant Generous(all, server) ==> |nodes| == page * 250 && (page > 0 ==> |nodes| < |all| - from)
      decreases MAX_NESTED_PAGES - page
    {
      var reply := server(page, after);
      assert TruthfulReply(all, from + |nodes|, reply);
      assert Generous(all, server) ==> GenerousReply(all, from + |nodes|, reply);
      if reply.Thrown? {
        return nodes, false, page + 1;
      }
      if reply.page.None? {
        return nodes, false, page + 1;
      }
      var connection := reply.page.value;
      nodes := nodes + connection.nodes.GetOr([]);
      if connection.info.None? {
        return nodes, false, page + 1;
      }
      var info := connection.info.value;
      if !info.hasNextPage {
        return nodes, true, page + 1;
      }
      if info.endCursor.None? {
        return nodes, false, page + 1;
      }
      after := info.endCursor;
      page := page + 1;
    }
    return nodes, false, page;
  }

  /** A connection as it came in the first answer; draining appends to its nodes. */
  class Connection<T> {
    var nodes: Option<seq<T>>
    var info: Option<PageInfo>

    constructor (page: Page<T>)
      ensures nodes == page.nodes && info == page.info
    {
      nodes, info := page.nodes, page.info;
    }
  }

  /**
   The nodes a completed connection ends up with: the whole list, except when the first
   page announced more without a cursor. Then the drain starts over, and the nodes of
   the first page come twice.
   */
  function Completed<T>(first: Option<seq<T>>, info: Option<PageInfo>, all: seq<T>): seq<T> {
    if CursorWithheld(info) then first.GetOr([]) + all else all
  }

  /** Where a drain after the first page starts. */
  function StartOf<T>(first: Option<seq<T>>, info: Option<PageInfo>): nat {
    if CursorWithheld(info) then 0 else |first.GetOr([])|
  }

  /** The nodes of a first page with some start of the list after them. */
  ghost predicate FirstPlusPrefix<T>(first: seq<T>, nodes: seq<T>, all: seq<T>) {
    first <= nodes && nodes[|first|..] <= all
  }

  /**
   The completion of one product connection. After a `true` the nodes are the whole list
   if and only if no cursor was withheld after a first page with something on it; the
   drain then started over.
   */
  method CompleteConnection<T>(connection: Connection<T>, server: Server<T>, ghost all: seq<T>) returns (complete: bool)
    requires Truthful(all, 0, Page(connection.nodes, connection.info)) && Consistent(all, server)
    modifies connection
    ensures connection.info == old(connection.info)
    ensures complete ==> connection.nodes.GetOr([]) == Completed(old(connection.nodes), connection.info, all)
    ensures complete ==>
      (connection.nodes.GetOr([]) == all <==> !(CursorWithheld(connection.info) && old(connection.nodes).GetOr([]) != []))
    ensures !CursorWithheld(connection.info) ==> connection.nodes.GetOr([]) <= all
    ensures CursorWithheld(connection.info) ==>
      FirstPlusPrefix(old(connection.nodes).GetOr([]), connection.nodes.GetOr([]), all)
    ensures Generous(all, server) && connection.info.Some? ==>
      (complete <==> |all| - StartOf(old(connection.nodes), connection.info) <= 5_000)
  {
    if connection.info.None? {
      return false;
    }
    var info := connection.info.value;
    if !info.hasNextPage {
      return true;
    }
    var rest, done, calls := Drain(server, info.endCursor, all);
    connection.nodes := Some(connection.nodes.GetOr([]) + rest);
    complete := done;
  }

  /** Both connections of a product, one after the other; one that was not asked for counts as incomplete. */
  method CompleteProduct<V, I>(
    variants: Option<Connection<V>>, images: Option<Connection<I>>,
    variantServer: Server<V>, imageServer: Server<I>, ghost allVariants: seq<V>, ghost allImages: seq<I>)
    returns (variantsComplete: bool, imagesComplete: bool)
    requires variants.Some? ==> Truthful(allVariants, 0, Page(variants.value.nodes, variants.value.info))
    requires images.Some? ==> Truthful(allImages, 0, Page(images.value.nodes, images.value.info))
    requires variants.Some? && images.Some? ==> variants.value as object != images.value as object
    requires Consistent(allVariants, variantServer) && Consistent(allImages, imageServer)
    modifies (if variants.Some? then {variants.value} else {}) + (if images.Some? then {images.value} else {})
    ensures variantsComplete ==> variants.Some?
    ensures variantsComplete ==>
      variants.value.nodes.GetOr([]) == Completed(old(variants.value.nodes), old(variants.value.info), allVariants)
    ensures imagesComplete ==> images.Some?
    ensures imagesComplete ==>
      images.value.nodes.GetOr([]) == Completed(old(images.value.nodes), old(images.value.info), allImages)
  {
    variantsComplete, imagesComplete := false, false;
    if variants.Some? {
      variantsComplete := CompleteConnection(variants.value, variantServer, allVariants);
    }
    if images.Some? {
      imagesComplete := CompleteConnection(images.value, imageServer, allImages);
    }
  }

  /**
   The returns of an order: what cannot be read to the end becomes unknown. Here the
   missing cursor is looked for first, so nothing is ever read twice.
   */
  method CompleteReturns<T>(page: Page<T>, server: Server<T>, ghost all: seq<T>) returns (out: Option<Page<T>>)
    requires Truthful(all, 0, page) && Consistent(all, server)
    ensures page.info.Some? && page.nodes.Some? ==>
      (out.Some? ==> out.value.nodes == Some(all) && out.value.info.Some? && !out.value.info.value.hasNextPage)
    ensures page.info.None? || page.nodes.None? ==> out == Some(page)
    ensures Generous(all, server) && page.info.Some? && page.nodes.Some? && !CursorWithheld(page.info) ==>
      (out.Some? <==> |all| - |page.nodes.value| <= 5_000)
  {
    assert all[0..|all|] == all;
    if page.info.None? || !page.info.value.hasNextPage || page.nodes.None? {
      return Some(page);
    }
    var rest, complete := [], false;
    if page.info.value.endCursor.Some? {
      var calls;
      rest, complete, calls := Drain(server, page.info.value.endCursor, all);
    }
    if complete {
      assert page.nodes.value + rest == all;
      return Some(Page(Some(page.nodes.value + rest), Some(PageInfo(false, None))));
    }
    return None;
  }

  /** The lines of an order and the bit that allows a deletion by difference. */
  method AllLines<T>(page: Page<T>, server: Server<T>, ghost all: seq<T>) returns (lines: seq<T>, complete: bool)
    requires Truthful(all, 0, page) && Consistent(all, server)
    ensures complete ==> lines == Completed(page.nodes, page.info, all)
    ensures complete ==> (lines == all <==> !(CursorWithheld(page.info) && page.nodes.GetOr([]) != []))
    ensures !CursorWithheld(page.info) ==> lines <= all
    ensures CursorWithheld(page.info) ==> FirstPlusPrefix(page.nodes.GetOr([]), lines, all)
    ensures Generous(all, server) && page.info.Some? ==>
      (complete <==> |all| - StartOf(page.nodes, page.info) <= 5_000)
    ensures forall x | x in lines :: x in all
    ensures complete ==> forall x | x in all :: x in lines
  {
    lines := page.nodes.GetOr([]);
    complete := page.info.Some? && !page.info.value.hasNextPage;
    if page.info.Some? && page.info.value.hasNextPage {
      var rest, done, calls := Drain(server, page.info.value.endCursor, all);
      lines, complete := lines + rest, done;
    }
  }

  /** A server that answers from the cursor it is given, with a list that fits one page. */
  function Honest(all: seq<int>): Server<int>
    requires |all| <= 250
  {
    (k: nat, after: Option<Cursor>) =>
      if after.GetOr(0) <= |all| then Answer(Some(Page(Some(all[after.GetOr(0)..]), Some(PageInfo(false, None)))))
      else Thrown
  }

  /** Two lines, and a first page that shows one and announces the other without a cursor: the first comes twice. */
  method FirstPageTwice() returns (lines: seq<int>, complete: bool)
    ensures complete && lines == [1, 1, 2]
  {
    var page := Page(Some([1]), Some(PageInfo(true, None)));
    lines, complete := AllLines(page, Honest([1, 2]), [1, 2]);
    assert Generous([1, 2], Honest([1, 2]));
  }

  // --- Deletion by difference ---------------------------------------------------

  // How many lines go into one upsert.
  const CHUNK := 1000

  /** The rows written for the lines of one order. */
  function RowsOf(ids: seq<int>, order: int): (rows: map<int, int>)
    ensures forall id :: id in rows <==> id in ids
    ensures forall id | id in rows :: rows[id] == order
  {
    map id | id in ids :: order
  }

  /** No id twice within one chunk of what was written so far. */
  ghost predicate ChunksRepeatNothing(ids: seq<int>, done: nat)
    requires done <= |ids|
  {
    forall i, j | 0 <= i < j < done && i / 1000 == j / 1000 :: ids[i] != ids[j]
  }

  ghost predicate Repeats(ids: seq<int>) {
    exists i, j :: 0 <= i < j < |ids| && ids[i] == ids[j]
  }

  /** What became of an order: nothing written, only lines added, or all of it. */
  datatype Outcome = OrderRefused | LinesRefused | Written(deleted: nat, repairPending: bool)

  /** The merchant's order lines: which order each stored line belongs to. Any call may fail. */
  class LineTable {
    var lines: map<int, int>

    constructor ()
      ensures lines == map[]
    {
      lines := map[];
    }

    /** One upsert. A statement that names a row twice is refused, and writes nothing. */
    method Upsert(order: int, ids: seq<int>) returns (ok: bool)
      modifies this
      ensures ok ==> !Repeats(ids)
      ensures lines == if ok then old(lines) + RowsOf(ids, order) else old(lines)
    {
      ok := *;
      var seen: set<int> := {};
      for i := 0 to |ids|
        invariant forall k | 0 <= k < i :: ids[k] in seen
        invariant ok ==> seen == (set k | 0 <= k < i :: ids[k])
        invariant ok ==> forall j, k | 0 <= j < k < i :: ids[j] != ids[k]
      {
        if ids[i] in seen {
          ok := false;
        }
        seen := seen + {ids[i]};
      }
      if ok {
        lines := lines + RowsOf(ids, order);
      }
    }

    /** The lines of an order, chunk by chunk; what was written before a failure stays. */
    method UpsertLines(order: int, fetched: seq<int>) returns (ok: bool, ghost done: nat)
      modifies this
      ensures done <= |fetched| && (ok ==> done == |fetched|)
      ensures lines == old(lines) + RowsOf(fetched[..done], order)
      ensures ok ==> ChunksRepeatNothing(fetched, |fetched|)
    {
      hide RowsOf, Repeats, ChunksRepeatNothing;
      done := 0;
      RowsOfParts(fetched, 0, 0, order);
      assert ChunksRepeatNothing(fetched, 0) by { NothingRepeated(fetched); }
      var i := 0;
      while i < |fetched|
        invariant 0 <= i && done == (if i <= |fetched| then i else |fetched|)
        invariant i % CHUNK == 0
        invariant lines == old(lines) + RowsOf(fetched[..done], order)
        invariant ChunksRepeatNothing(fetched, done)
      {
        var next := if i + CHUNK <= |fetched| then i + CHUNK else |fetched|;
        var more := Upsert(order, fetched[i..next]);
        if !more {
          return false, done;
        }
        ChunkIsNew(fetched, i, next);
        RowsOfParts(fetched, i, next, order);
        PlusAssociates(old(lines), RowsOf(fetched[..i], order), RowsOf(fetched[i..next], order));
        done := next;
        i := i + CHUNK;
      }
      assert fetched[..|fetched|] == fetched;
      ok := true;
    }

    /** `deleteStaleLines`: an error is reported and leaves the lines. */
    method DeleteStale(orders: seq<int>, keep: seq<int>) returns (deleted: nat, error: bool)
      modifies this
      ensures error ==> lines == old(lines)
      ensures !error ==> lines == map id | id in old(lines) && (old(lines)[id] !in orders || id in keep) :: old(lines)[id]
      ensures deleted == |old(lines).Keys - lines.Keys|
      ensures orders == [] ==> !error
    {
      if |orders| == 0 {
        assert lines == map id | id in lines && (lines[id] !in orders || id in keep) :: lines[id];
        assert lines.Keys - lines.Keys == {};
        return 0, false;
      }
      error := *;
      if error {
        assert lines.Keys - lines.Keys == {};
        return 0, true;
      }
      var gone := set id | id in lines && lines[id] in orders && (|keep| == 0 || id !in keep);
      lines := map id | id in lines && id !in gone :: lines[id];
      assert gone == old(lines).Keys - lines.Keys;
      deleted := |gone|;
    }

    /**
     Reading an order's lines and writing them. A live line is never deleted, and the
     lines of other orders stay as they were, whatever fails. When nothing is left to
     repair, the stored lines of the order are exactly its live ones. Lines read to the
     end after a first page whose cursor was withheld are refused.
     */
    method WriteOrder(order: int, page: Page<int>, server: Server<int>, ghost live: seq<int>)
      returns (outcome: Outcome, complete: bool)
      requires Truthful(live, 0, page) && Consistent(live, server)
      requires forall id | id in live && id in lines :: lines[id] == order
      modifies this
      ensures forall id | id in live && id in old(lines) :: id in lines && lines[id] == order
      ensures forall id | id in old(lines) && old(lines)[id] != order :: id in lines && lines[id] == old(lines)[id]
      ensures forall id | id in lines && id !in old(lines) :: id in live && lines[id] == order
      ensures forall id | id in lines && id in old(lines) :: lines[id] == old(lines)[id]
      ensures outcome.OrderRefused? ==> lines == old(lines)
      ensures outcome.Written? && complete ==> forall id | id in live :: id in lines
      ensures outcome.Written? ==>
        (!outcome.repairPending ==> complete && forall id :: id in lines && lines[id] == order <==> id in live)
      ensures !(outcome.Written? && !outcome.repairPending) ==> forall id | id in old(lines) :: id in lines
      ensures outcome.Written? ==> outcome.deleted == |old(lines).Keys - lines.Keys|
      ensures complete && CursorWithheld(page.info) && 0 < |page.nodes.GetOr([])| < 1000 ==> !outcome.Written?
    {
      hide RowsOf, Truthful, Consistent, Completed, FirstPlusPrefix, Generous;
      var fetched;
      ghost var was := lines;
      fetched, complete := AllLines(page, server, live);
      var refused: bool := *;
      if refused {
        return OrderRefused, complete;
      }
      if complete && CursorWithheld(page.info) {
        ReadTwice(page, live);
      }
      var ok, done := UpsertLines(order, fetched);
      Added(was, fetched, done, order, live);
      if !ok {
        return LinesRefused, complete;
      }
      if !complete {
        return Written(0, true), complete;
      }
      ghost var before := lines;
      var deleted, error := DeleteStale([order], fetched);
      Removed(was, before, lines, fetched, order, live, error);
      return Written(deleted, error), complete;
    }
  }

  /** The first node of such a reading is there again, in the first chunk. */
  lemma ReadTwice(page: Page<int>, live: seq<int>)
    requires Truthful(live, 0, page) && CursorWithheld(page.info)
    ensures var nodes, fetched := page.nodes.GetOr([]), Completed(page.nodes, page.info, live);
      0 < |nodes| < CHUNK ==> |nodes| < |fetched| && fetched[0] == fetched[|nodes|] && 0 / CHUNK == |nodes| / CHUNK
  {
  }

  lemma NothingRepeated(ids: seq<int>)
    ensures ChunksRepeatNothing(ids, 0)
  {
  }

  lemma PlusAssociates(a: map<int, int>, b: map<int, int>, c: map<int, int>)
    ensures (a + b) + c == a + (b + c)
  {
  }

  lemma RowsOfParts(ids: seq<int>, i: nat, next: nat, order: int)
    requires i <= next <= |ids|
    ensures RowsOf(ids[..0], order) == map[]
    ensures RowsOf(ids[..next], order) == RowsOf(ids[..i], order) + RowsOf(ids[i..next], order)
  {
    assert ids[..next] == ids[..i] + ids[i..next];
  }

  lemma ChunkIsNew(ids: seq<int>, i: nat, next: nat)
    requires i % CHUNK == 0 && i < |ids| && next == (if i + CHUNK <= |ids| then i + CHUNK else |ids|)
    requires !Repeats(ids[i..next]) && ChunksRepeatNothing(ids, i)
    ensures ChunksRepeatNothing(ids, next)
  {
    forall j, k | 0 <= j < k < next && j / CHUNK == k / CHUNK ensures ids[j] != ids[k] {
      if j >= i {
        assert ids[i..next][j - i] == ids[j] && ids[i..next][k - i] == ids[k];
      }
    }
  }

  /** Adding lines of the order: what is there after it. */
  lemma Added(was: map<int, int>, ids: seq<int>, done: nat, order: int, live: seq<int>)
    requires done <= |ids|
    requires forall id | id in ids :: id in live
    requires forall id | id in live && id in was :: was[id] == order
    ensures var mid := was + RowsOf(ids[..done], order);
      && (forall id | id in was :: id in mid && mid[id] == was[id])
      && (forall id | id in mid && id !in was :: id in live && mid[id] == order)
      && (done == |ids| ==> forall id | id in ids :: id in mid && mid[id] == order)
      && was.Keys - mid.Keys == {}
  {
  }

  /** Adding lines of the order, then deleting those that were not read: what is there after it. */
  lemma Removed(was: map<int, int>, mid: map<int, int>, end: map<int, int>, keep: seq<int>, order: int, live: seq<int>, error: bool)
    requires forall id | id in was :: id in mid && mid[id] == was[id]
    requires forall id | id in mid && id !in was :: id in live && mid[id] == order
    requires forall id :: id in keep <==> id in live
    requires forall id | id in keep :: id in mid && mid[id] == order
    requires if error then end == mid else end == map id | id in mid && (mid[id] !in [order] || id in keep) :: mid[id]
    ensures forall id | id in end :: id in mid && end[id] == mid[id]
    ensures forall id | id in mid && mid[id] != order :: id in end
    ensures forall id | id in live :: id in end
    ensures if error then end == mid else forall id :: id in end && end[id] == order <==> id in live
    ensures mid.Keys - end.Keys == was.Keys - end.Keys
  {
    forall id ensures id in mid.Keys - end.Keys <==> id in was.Keys - end.Keys {
      assert id in mid && id !in was ==> id in live;
    }
  }
}
