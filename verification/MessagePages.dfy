/** Keyset pagination of a conversation: forward after a cursor, backward before one. */
module MessagePages {
  import opened Results

  const MAX_PAGE_LIMIT := 200

  datatype Message = Message(id: nat, createdAt: int, conversation: nat)

  type Store = set<Message>

  /** Ids are the table's primary key. */
  ghost predicate Keyed(store: Store) {
    forall m, n :: m in store && n in store && m.id == n.id ==> m == n
  }

  /** The key order: creation time, then id. */
  predicate Before(m: Message, n: Message) {
    m.createdAt < n.createdAt || (m.createdAt == n.createdAt && m.id < n.id)
  }

  function InConversation(store: Store, conversation: nat): set<Message> {
    set m | m in store && m.conversation == conversation
  }

  lemma {:induction false} LeastExists(s: set<Message>) returns (least: Message)
    requires s != {} && Keyed(s)
    ensures least in s && forall m :: m in s && m != least ==> Before(least, m)
    decreases |s|
  {
    least :| least in s;
    var rest := s - {least};
    if rest != {} {
      var x := least;
      var y := LeastExists(rest);
      assert y in s && x.id != y.id;
      if Before(y, x) {
        least := y;
      }
      forall m | m in s && m != least ensures Before(least, m) {
        assert m in rest || m == x;
      }
    } else {
      assert s == {least};
    }
  }

  ghost predicate Least(s: set<Message>, least: Message) {
    least in s && forall m :: m in s && m != least ==> Before(least, m)
  }

  /** The rows of a query in key order. */
  ghost function Ordered(s: set<Message>): seq<Message>
    decreases |s|
  {
    if exists least :: Least(s, least) then
      var least :| Least(s, least);
      [least] + Ordered(s - {least})
    else []
  }

  ghost predicate InKeyOrder(all: seq<Message>) {
    forall i, j :: 0 <= i < j < |all| ==> Before(all[i], all[j])
  }

  lemma OrderedUnfolds(s: set<Message>) returns (least: Message)
    requires s != {} && Keyed(s)
    ensures Least(s, least) && Ordered(s) == [least] + Ordered(s - {least})
  {
    var x := LeastExists(s);
    assert Least(s, x);
    least :| Least(s, least) && Ordered(s) == [least] + Ordered(s - {least});
  }

  lemma {:induction false} OrderedRows(s: set<Message>)
    requires Keyed(s)
    ensures InKeyOrder(Ordered(s))
    ensures forall m :: m in Ordered(s) <==> m in s
    ensures |Ordered(s)| == |s|
    decreases |s|
  {
    if s == {} {
      assert Ordered(s) == [];
    } else {
      var least := OrderedUnfolds(s);
      var rest := Ordered(s - {least});
      OrderedRows(s - {least});
      forall i | 0 <= i < |rest| ensures Before(least, rest[i]) {
        assert rest[i] in rest;
      }
      assert forall m :: m in [least] + rest <==> m == least || m in rest;
    }
  }

  /** Key order leaves no choice. */
  lemma {:induction false} OrderedIsUnique(r: seq<Message>, t: seq<Message>)
    requires InKeyOrder(r) && InKeyOrder(t)
    requires forall m :: m in r <==> m in t
    ensures r == t
    decreases |r|
  {
    if r == [] {
      assert t == [] by { if t != [] { var _ := SomeMessage(t); assert false; } }
    } else {
      assert r[0] in t;
      assert t[0] in r;
      assert r[0] == t[0];
      forall m ensures m in r[1..] <==> m in t[1..] {
        assert m in r <==> m == r[0] || m in r[1..];
        assert m in t <==> m == t[0] || m in t[1..];
      }
      OrderedIsUnique(r[1..], t[1..]);
    }
  }

  lemma SomeMessage(r: seq<Message>) returns (m: Message)
    requires r != []
    ensures m in r
  {
    m := r[0];
  }

  function Clamp(limit: int): nat {
    if limit < 1 then 1 else if limit > MAX_PAGE_LIMIT then MAX_PAGE_LIMIT else limit
  }

  /** The limit that applies: the one asked for, brought between 1 and 200. */
  lemma ClampTells(limit: int)
    ensures 1 <= Clamp(limit) <= 200
    ensures 1 <= limit <= 200 ==> Clamp(limit) == limit
    ensures limit < 1 ==> Clamp(limit) == 1
    ensures limit > 200 ==> Clamp(limit) == 200
  {
  }

  // ----- one page -----

  ghost function Find(store: Store, id: nat): Option<Message>
    requires Keyed(store)
  {
    if exists m :: m in store && m.id == id then
      var m :| m in store && m.id == id;
      Some(m)
    else None
  }

  /** The rows a forward page selects from: those after the cursor, or all if the cursor is unknown here. */
  ghost function After(store: Store, conversation: nat, cursor: Option<nat>): set<Message>
    requires Keyed(store)
  {
    var rows := InConversation(store, conversation);
    var anchor := if cursor.Some? then Find(store, cursor.value) else None;
    if anchor.Some? && anchor.value.conversation == conversation
    then set m | m in rows && Before(anchor.value, m)
    else rows
  }

  datatype Page = Page(rows: seq<Message>, next: Option<nat>)

  /** `list_conversation_messages`. */
  ghost function ForwardPage(store: Store, conversation: nat, cursor: Option<nat>, limit: int): Page
    requires Keyed(store)
  {
    Cut(Ordered(After(store, conversation, cursor)), Clamp(limit))
  }

  /** The first `n` rows, with a cursor to the last of them if more follow. */
  function Cut(rows: seq<Message>, n: nat): Page
    requires n > 0
  {
    if |rows| > n then Page(rows[..n], Some(rows[n - 1].id)) else Page(rows, None)
  }

  /** The rows a backward page selects from, or `None` for a cursor that is not of this conversation. */
  ghost function Earlier(store: Store, conversation: nat, before: Option<nat>): Option<set<Message>>
    requires Keyed(store)
  {
    var rows := InConversation(store, conversation);
    if before.None? then Some(rows)
    else
      var anchor := Find(store, before.value);
      if anchor.None? || anchor.value.conversation != conversation then None
      else Some(set m | m in rows && Before(m, anchor.value))
  }

  function Reversed(s: seq<Message>): (r: seq<Message>)
    ensures |r| == |s| && forall i :: 0 <= i < |s| ==> r[i] == s[|s| - 1 - i]
  {
    if s == [] then [] else Reversed(s[1..]) + [s[0]]
  }

  /** `list_recent_conversation_messages`: newest first, cut, and reversed for display. */
  ghost function RecentPage(store: Store, conversation: nat, before: Option<nat>, limit: int): Option<Page>
    requires Keyed(store)
  {
    var selected := Earlier(store, conversation, before);
    if selected.None? then None
    else
      var newest := Cut(Reversed(Ordered(selected.value)), Clamp(limit));
      Some(Page(Reversed(newest.rows), newest.next))
  }

  // ----- positions in the ordered conversation -----

  /** The page at position `k` of a list: the next `n` rows, and a cursor only if more follow. */
  function PageAt(all: seq<Message>, n: nat, k: nat): Page
    requires n > 0 && k <= |all|
  {
    if |all| - k > n then Page(all[k..k + n], Some(all[k + n - 1].id)) else Page(all[k..|all|], None)
  }

  /** A forward cursor names the last row already read. */
  predicate CursorAt(all: seq<Message>, cursor: Option<nat>, k: nat) {
    k <= |all| && if k == 0 then cursor.None? else cursor == Some(all[k - 1].id)
  }

  /** The window that ends before position `k`: `n` rows, and a cursor only if earlier ones exist. */
  function WindowAt(all: seq<Message>, n: nat, k: nat): Page
    requires n > 0 && k <= |all|
  {
    if k > n then Page(all[k - n..k], Some(all[k - n].id)) else Page(all[0..k], None)
  }

  /** A backward cursor names the first row already read. */
  predicate BackCursorAt(all: seq<Message>, before: Option<nat>, k: nat) {
    k <= |all| && if k == |all| then before.None? else before == Some(all[k].id)
  }

  lemma SuffixAfter(all: seq<Message>, k: nat, m: Message)
    requires InKeyOrder(all) && 0 < k <= |all|
    ensures m in all && Before(all[k - 1], m) <==> m in all[k..]
  {
    if m in all[k..] {
      var i :| k <= i < |all| && all[i] == m;
    }
    if m in all && Before(all[k - 1], m) {
      var i :| 0 <= i < |all| && all[i] == m;
      assert i >= k;
      assert all[k..][i - k] == m;
    }
  }

  lemma PrefixBefore(all: seq<Message>, k: nat, m: Message)
    requires InKeyOrder(all) && k < |all|
    ensures m in all && Before(m, all[k]) <==> m in all[..k]
  {
    if m in all[..k] {
      var i :| 0 <= i < k && all[i] == m;
    }
    if m in all && Before(m, all[k]) {
      var i :| 0 <= i < |all| && all[i] == m;
      assert i < k;
      assert all[..k][i] == m;
    }
  }

  /** A cursor at position `k` selects exactly the rows from `k` on. */
  lemma AfterIsSuffix(store: Store, conversation: nat, cursor: Option<nat>, k: nat)
    requires Keyed(store) && CursorAt(Ordered(InConversation(store, conversation)), cursor, k)
    ensures Ordered(After(store, conversation, cursor)) == Ordered(InConversation(store, conversation))[k..]
  {
    var rows := InConversation(store, conversation);
    var all := Ordered(rows);
    OrderedRows(rows);
    if k == 0 {
      assert all[0..] == all;
    } else {
      assert all[k - 1] in all;
      assert all[k - 1] in rows;
      var selected := After(store, conversation, cursor);
      forall m ensures m in all[k..] <==> m in selected {
        SuffixAfter(all, k, m);
      }
      OrderedRows(selected);
      OrderedIsUnique(Ordered(selected), all[k..]);
    }
  }

  /** A forward page read with a cursor at position `k` is the page at that position. */
  lemma ForwardPageAt(store: Store, conversation: nat, cursor: Option<nat>, limit: int, k: nat)
    requires Keyed(store) && CursorAt(Ordered(InConversation(store, conversation)), cursor, k)
    ensures ForwardPage(store, conversation, cursor, limit) ==
            PageAt(Ordered(InConversation(store, conversation)), Clamp(limit), k)
  {
    AfterIsSuffix(store, conversation, cursor, k);
  }

  // ----- forward: following `next` from the start -----

  /** All pages from `cursor` on, as a client that follows `next` sees them. */
  ghost function Follow(page: Option<nat> -> Page, cursor: Option<nat>, fuel: nat): seq<Page>
    decreases fuel
  {
    if page(cursor).next.None? || fuel == 0 then [page(cursor)]
    else [page(cursor)] + Follow(page, page(cursor).next, fuel - 1)
  }

  ghost function ForwardPages(store: Store, conversation: nat, limit: int, fuel: nat): seq<Page>
    requires Keyed(store)
  {
    Follow((cursor: Option<nat>) => ForwardPage(store, conversation, cursor, limit), None, fuel)
  }

  function Rows(pages: seq<Page>): seq<Message> {
    if pages == [] then [] else pages[0].rows + Rows(pages[1..])
  }

  lemma NextCursor(all: seq<Message>, n: nat, k: nat)
    requires n > 0 && k + n < |all|
    ensures CursorAt(all, PageAt(all, n, k).next, k + n)
  {
  }

  ghost predicate NoEmptyPage(pages: seq<Page>) {
    forall i :: 0 <= i < |pages| ==> pages[i].rows != []
  }

  /** The pages show `rows`, none of them is empty unless there is nothing to show, and the last one ends. */
  ghost predicate Covers(pages: seq<Page>, rows: seq<Message>) {
    && Rows(pages) == rows && Ends(pages)
    && (rows != [] ==> NoEmptyPage(pages))
  }

  ghost predicate Ends(pages: seq<Page>) {
    |pages| > 0 && pages[|pages| - 1].next.None?
  }

  lemma {:induction false} CoverOne(page: Page)
    requires page.next.None?
    ensures Covers([page], page.rows)
  {
    assert [page][1..] == [];
    assert Rows([page]) == page.rows + [];
  }

  lemma {:induction false} CoverMore(page: Page, rest: seq<Page>, rows: seq<Message>)
    requires Covers(rest, rows) && rows != [] && page.rows != []
    ensures Covers([page] + rest, page.rows + rows)
  {
    assert ([page] + rest)[1..] == rest;
  }

  lemma {:induction false} FollowMore(page: Option<nat> -> Page, cursor: Option<nat>, fuel: nat, first: Page)
    requires page(cursor) == first && first.next.Some? && fuel > 0
    ensures Follow(page, cursor, fuel) == [first] + Follow(page, first.next, fuel - 1)
  {
  }

  lemma {:induction false} FollowLast(page: Option<nat> -> Page, cursor: Option<nat>, fuel: nat, first: Page)
    requires page(cursor) == first && first.next.None?
    ensures Follow(page, cursor, fuel) == [first]
  {
  }

  lemma SliceJoins(all: seq<Message>, i: nat, j: nat, k: nat)
    requires i <= j <= k <= |all|
    ensures all[i..j] + all[j..k] == all[i..k]
  {
  }

  lemma {:induction false} PageThenRest(all: seq<Message>, n: nat, k: nat, rest: seq<Page>)
    requires n > 0 && k + n < |all| && Covers(rest, all[k + n..|all|])
    ensures Covers([PageAt(all, n, k)] + rest, all[k..|all|])
  {
    CoverMore(PageAt(all, n, k), rest, all[k + n..|all|]);
    SliceJoins(all, k, k + n, |all|);
  }

  /** Following `next` from position `k` shows the rest of the list. */
  lemma {:induction false} FollowCovers(page: Option<nat> -> Page, all: seq<Message>, n: nat, cursor: Option<nat>,
                                        k: nat, fuel: nat)
    requires n > 0 && CursorAt(all, cursor, k) && fuel >= |all| - k
    requires forall c, j: nat :: CursorAt(all, c, j) ==> page(c) == PageAt(all, n, j)
    ensures Covers(Follow(page, cursor, fuel), all[k..|all|])
    decreases fuel
  {
    var first := PageAt(all, n, k);
    assert page(cursor) == first;
    if |all| - k > n {
      NextCursor(all, n, k);
      FollowCovers(page, all, n, first.next, k + n, fuel - 1);
      FollowMore(page, cursor, fuel, first);
      PageThenRest(all, n, k, Follow(page, first.next, fuel - 1));
    } else {
      FollowLast(page, cursor, fuel, first);
      CoverOne(first);
    }
  }

  /** Forward paging from the start shows the whole conversation in key order, each message once, for
      every limit, and never ends with an empty page unless the conversation is empty. */
  lemma ForwardPagingComplete(store: Store, conversation: nat, limit: int)
    requires Keyed(store)
    ensures var pages := ForwardPages(store, conversation, limit, |InConversation(store, conversation)|);
            && Rows(pages) == Ordered(InConversation(store, conversation))
            && |pages| > 0 && pages[|pages| - 1].next.None?
            && (InConversation(store, conversation) != {} ==> NoEmptyPage(pages))
  {
    OrderedRows(InConversation(store, conversation));
    var all := Ordered(InConversation(store, conversation));
    ForwardCovers(store, conversation, limit, all);
  }

  lemma {:induction false} ForwardCovers(store: Store, conversation: nat, limit: int, all: seq<Message>)
    requires Keyed(store) && all == Ordered(InConversation(store, conversation))
    ensures Covers(ForwardPages(store, conversation, limit, |all|), all)
  {
    var page := (cursor: Option<nat>) => ForwardPage(store, conversation, cursor, limit);
    forall c, j: nat | CursorAt(all, c, j) ensures page(c) == PageAt(all, Clamp(limit), j) {
      ForwardPageAt(store, conversation, c, limit, j);
    }
    FollowCovers(page, all, Clamp(limit), None, 0, |all|);
    assert all[0..|all|] == all;
  }

  // ----- backward, while newer messages arrive -----

  /** The table grows between pages: messages may be added to this conversation after every message of the
      first page's table, and to others at any place. */
  ghost predicate GrowsAfter(store: Store, later: Store, conversation: nat) {
    && store <= later && Keyed(later)
    && forall m, n :: m in later - store && m.conversation == conversation
                       && n in InConversation(store, conversation) ==>
         Before(n, m)
  }

  /** All windows from `before` on, the `i`-th being read by `page(i, ...)`, until one fails or is the last. */
  ghost function FollowBack(page: (nat, Option<nat>) -> Option<Page>, before: Option<nat>, i: nat, fuel: nat): seq<Page>
    decreases fuel
  {
    if page(i, before).None? || fuel == 0 then []
    else if page(i, before).value.next.None? then [page(i, before).value]
    else [page(i, before).value] + FollowBack(page, page(i, before).value.next, i + 1, fuel - 1)
  }

  /** A client that keeps loading earlier messages; `stores[i]` is the table when window `i` is read. */
  ghost function RecentPages(stores: seq<Store>, conversation: nat, limit: int): seq<Page>
    requires forall i :: 0 <= i < |stores| ==> Keyed(stores[i])
  {
    FollowBack((i: nat, before: Option<nat>) =>
                 if i < |stores| then RecentPage(stores[i], conversation, before, limit) else None, None, 0, |stores|)
  }

  /** The pages in display order: the last one loaded is shown first. */
  function Display(pages: seq<Page>): seq<Message> {
    if pages == [] then [] else Display(pages[1..]) + pages[0].rows
  }

  /** In any later table a cursor of the first one selects exactly the rows before it. */
  lemma EarlierIsPrefix(store: Store, later: Store, conversation: nat, before: Option<nat>, k: nat)
    requires Keyed(store) && GrowsAfter(store, later, conversation)
    requires k < |Ordered(InConversation(store, conversation))|
    requires BackCursorAt(Ordered(InConversation(store, conversation)), before, k)
    ensures Earlier(later, conversation, before).Some? && Keyed(Earlier(later, conversation, before).value)
    ensures Ordered(Earlier(later, conversation, before).value) == Ordered(InConversation(store, conversation))[..k]
  {
    var all := Ordered(InConversation(store, conversation));
    var anchor := all[k];
    OrderedRows(InConversation(store, conversation));
    assert anchor in all;
    assert anchor in InConversation(store, conversation);
    var selected := Earlier(later, conversation, before).value;
    forall m ensures m in all[..k] <==> m in selected {
      PrefixBefore(all, k, m);
      assert m in later - store && m.conversation == conversation ==> !Before(m, anchor);
    }
    OrderedRows(selected);
    OrderedIsUnique(Ordered(selected), all[..k]);
  }

  lemma {:induction false} ReversedTwice(rows: seq<Message>)
    ensures Reversed(Reversed(rows)) == rows
  {
  }

  lemma {:induction false} CutNewest(rows: seq<Message>, n: nat)
    requires |rows| > n > 0
    ensures Reversed(Reversed(rows)[..n]) == rows[|rows| - n..]
    ensures Reversed(rows)[..n][n - 1] == rows[|rows| - n]
  {
    var kept, tail := Reversed(rows)[..n], rows[|rows| - n..];
    var back := Reversed(kept);
    forall i | 0 <= i < n ensures back[i] == tail[i] {
      assert back[i] == kept[n - 1 - i];
      assert kept[n - 1 - i] == Reversed(rows)[n - 1 - i];
      assert Reversed(rows)[n - 1 - i] == rows[|rows| - n + i];
    }
    assert back == tail;
  }

  /** Newest first, cut and reversed again, the first `k` rows give the window that ends at `k`. */
  lemma CutWindow(all: seq<Message>, n: nat, k: nat)
    requires n > 0 && k <= |all|
    ensures var newest := Cut(Reversed(all[..k]), n);
            Page(Reversed(newest.rows), newest.next) == WindowAt(all, n, k)
  {
    if k > n {
      CutNewest(all[..k], n);
      assert all[..k][k - n..] == all[k - n..k];
    } else {
      ReversedTwice(all[..k]);
    }
  }

  /** A window read with a cursor at position `k`, from the first table or any later one. */
  lemma RecentPageAt(store: Store, later: Store, conversation: nat, before: Option<nat>, limit: int, k: nat)
    requires Keyed(store) && GrowsAfter(store, later, conversation)
    requires BackCursorAt(Ordered(InConversation(store, conversation)), before, k)
    requires later == store || k < |Ordered(InConversation(store, conversation))|
    ensures RecentPage(later, conversation, before, limit) ==
            Some(WindowAt(Ordered(InConversation(store, conversation)), Clamp(limit), k))
  {
    var all := Ordered(InConversation(store, conversation));
    if k < |all| {
      EarlierIsPrefix(store, later, conversation, before, k);
    } else {
      assert all[..k] == all;
    }
    CutWindow(all, Clamp(limit), k);
  }

  lemma EarlierCursor(all: seq<Message>, n: nat, k: nat)
    requires 0 < n < k <= |all|
    ensures BackCursorAt(all, WindowAt(all, n, k).next, k - n)
  {
  }

  /** The windows show `rows` in display order, none of them is empty unless there is nothing to show, and the last one
      ends. */
  ghost predicate Displays(pages: seq<Page>, rows: seq<Message>) {
    && Display(pages) == rows && Ends(pages)
    && (rows != [] ==> NoEmptyPage(pages))
  }

  lemma {:induction false} DisplayOne(page: Page)
    requires page.next.None?
    ensures Displays([page], page.rows)
  {
    assert [page][1..] == [];
    assert Display([page]) == [] + page.rows;
  }

  lemma {:induction false} DisplayMore(page: Page, rest: seq<Page>, rows: seq<Message>)
    requires Displays(rest, rows) && rows != [] && page.rows != []
    ensures Displays([page] + rest, rows + page.rows)
  {
    assert ([page] + rest)[1..] == rest;
  }

  lemma {:induction false} FollowBackMore(page: (nat, Option<nat>) -> Option<Page>, before: Option<nat>, i: nat,
                                          fuel: nat, window: Page)
    requires page(i, before) == Some(window) && window.next.Some? && fuel > 0
    ensures FollowBack(page, before, i, fuel) == [window] + FollowBack(page, window.next, i + 1, fuel - 1)
  {
  }

  lemma {:induction false} FollowBackLast(page: (nat, Option<nat>) -> Option<Page>, before: Option<nat>, i: nat,
                                          fuel: nat, window: Page)
    requires page(i, before) == Some(window) && window.next.None? && fuel > 0
    ensures FollowBack(page, before, i, fuel) == [window]
  {
  }

  /** Loading earlier windows from position `k` shows the list up to there. */
  lemma {:induction false} FollowBackDisplays(page: (nat, Option<nat>) -> Option<Page>, all: seq<Message>, n: nat,
                                              before: Option<nat>, i: nat, k: nat, fuel: nat)
    requires n > 0 && BackCursorAt(all, before, k) && fuel > k && (i == 0 || k < |all|)
    requires forall j: nat, c, m: nat :: j < i + fuel && BackCursorAt(all, c, m) && (j == 0 || m < |all|) ==>
               page(j, c) == Some(WindowAt(all, n, m))
    ensures Displays(FollowBack(page, before, i, fuel), all[0..k])
    decreases fuel
  {
    var window := WindowAt(all, n, k);
    assert page(i, before) == Some(window);
    if k > n {
      EarlierCursor(all, n, k);
      FollowBackDisplays(page, all, n, window.next, i + 1, k - n, fuel - 1);
      FollowBackMore(page, before, i, fuel, window);
      DisplayMore(window, FollowBack(page, window.next, i + 1, fuel - 1), all[0..k - n]);
      SliceJoins(all, 0, k - n, k);
    } else {
      FollowBackLast(page, before, i, fuel, window);
      DisplayOne(window);
    }
  }

  lemma {:induction false} RecentDisplays(stores: seq<Store>, conversation: nat, limit: int, all: seq<Message>)
    requires |stores| > |all|
    requires forall i :: 0 <= i < |stores| ==> Keyed(stores[i]) && GrowsAfter(stores[0], stores[i], conversation)
    requires all == Ordered(InConversation(stores[0], conversation))
    ensures Displays(RecentPages(stores, conversation, limit), all)
  {
    var page := (i: nat, before: Option<nat>) =>
      if i < |stores| then RecentPage(stores[i], conversation, before, limit) else None;
    forall j: nat, c, m: nat | j < |stores| && BackCursorAt(all, c, m) && (j == 0 || m < |all|)
      ensures page(j, c) == Some(WindowAt(all, Clamp(limit), m))
    {
      RecentPageAt(stores[0], stores[j], conversation, c, limit, m);
    }
    FollowBackDisplays(page, all, Clamp(limit), None, 0, |all|, |stores|);
    assert all[0..|all|] == all;
  }

  /** Backward paging from the newest window shows exactly the conversation as it was when the first
      window was read, each message once and in key order, for every limit, while newer messages arrive. It
      ends, and never with an empty window unless the conversation was empty. */
  lemma BackwardPagingComplete(stores: seq<Store>, conversation: nat, limit: int)
    requires |stores| > 0
    requires forall i :: 0 <= i < |stores| ==> Keyed(stores[i]) && GrowsAfter(stores[0], stores[i], conversation)
    requires |stores| > |InConversation(stores[0], conversation)|
    ensures var pages := RecentPages(stores, conversation, limit);
            && Display(pages) == Ordered(InConversation(stores[0], conversation))
            && |pages| > 0 && pages[|pages| - 1].next.None?
            && (InConversation(stores[0], conversation) != {} ==> NoEmptyPage(pages))
  {
    var all := Ordered(InConversation(stores[0], conversation));
    OrderedRows(InConversation(stores[0], conversation));
    RecentDisplays(stores, conversation, limit, all);
  }

  // ----- the two functions, given the rows their query fetched -----

  /** `ORDER BY ... LIMIT n + 1` over the selected rows. */
  ghost function Fetched(ordered: seq<Message>, limit: int): seq<Message> {
    if |ordered| > Clamp(limit) then ordered[..Clamp(limit) + 1] else ordered
  }

  /** One row more than the limit is enough to cut the page. */
  lemma CutFetched(ordered: seq<Message>, limit: int)
    ensures Cut(ordered, Clamp(limit)) == Cut(Fetched(ordered, limit), Clamp(limit))
  {
    var n, fetched := Clamp(limit), Fetched(ordered, limit);
    if |ordered| > n {
      assert fetched[..n] == ordered[..n];
    }
  }

  method ListConversationMessages(ghost store: Store, ghost conversation: nat, ghost cursor: Option<nat>, limit: int,
                                  fetched: seq<Message>)
    returns (rows: seq<Message>, next: Option<nat>)
    requires Keyed(store) && fetched == Fetched(Ordered(After(store, conversation, cursor)), limit)
    ensures Page(rows, next) == ForwardPage(store, conversation, cursor, limit)
  {
    var n := Clamp(limit);
    rows := fetched;
    next := None;
    if |rows| > n {
      next := Some(rows[n - 1].id);
      rows := rows[..n];
    }
  }

  datatype PageError = InvalidCursor

  /** `anchor` is the row found under the cursor, if any; `fetched` is what the query returned, if it ran. */
  method ListRecentConversationMessages(ghost store: Store, conversation: nat, before: Option<nat>,
                                        anchor: Option<Message>,
                                        limit: int, fetched: seq<Message>)
    returns (r: Result<Page, PageError>)
    requires Keyed(store) && (before.Some? ==> anchor == Find(store, before.value))
    requires Earlier(store, conversation, before).Some? ==>
               fetched == Fetched(Reversed(Ordered(Earlier(store, conversation, before).value)), limit)
    ensures match RecentPage(store, conversation, before, limit)
            case None => r == Failure(InvalidCursor)
            case Some(page) => r == Success(page)
  {
    if before.Some? && (anchor.None? || anchor.value.conversation != conversation) {
      return Failure(InvalidCursor);
    }
    CutFetched(Reversed(Ordered(Earlier(store, conversation, before).value)), limit);
    var n := Clamp(limit);
    var rows := fetched;
    var hasEarlier := |rows| > n;
    if |rows| > n {
      rows := rows[..n];
    }
    var next := if hasEarlier && rows != [] then Some(rows[|rows| - 1].id) else None;
    return Success(Page(Reversed(rows), next));
  }
}
