/** A passenger's order history (handlers/users/orderhistory.py): the
    status labels, newest-first ordering, paging, and the inline keyboard
    with its page window and navigation buttons. */
module OrderHistory {
  import opened Text
  import Lifecycle

  // ---------------------------------------------------------------------
  // Status labels

  const UnknownLabel: string := "Holati noma'lum"

  /** `get_order_status_text`, applied as the history does: an order with
      no status record is shown as `initiated`. */
  function StatusLabel(status: Option<Lifecycle.Status>): (r: string)
  {
    var s := if status.None? then Lifecycle.Initiated else status.value;
    match s
    case Initiated => "\U{1F195} Yangi"
    case Completed => "✔️ Yakunlangan"
    case Failed => "❌ Muvaffaqiyatsiz"
    case Canceled => "\U{1F6AB} Bekor qilingan"
    case Processing => UnknownLabel
  }

  /** Only `processing` has no label of its own; the four labelled
      statuses are told apart. */
  lemma StatusLabels(a: Option<Lifecycle.Status>, b: Option<Lifecycle.Status>)
    ensures StatusLabel(a) == UnknownLabel <==> a == Some(Lifecycle.Processing)
    ensures StatusLabel(None) == StatusLabel(Some(Lifecycle.Initiated))
    ensures StatusLabel(a) != UnknownLabel && StatusLabel(a) == StatusLabel(b) ==>
      (if a.None? then Lifecycle.Initiated else a.value) == (if b.None? then Lifecycle.Initiated else b.value)
  {
    var ka := StatusLabel(a);
    var kb := StatusLabel(b);
    if ka != UnknownLabel && ka == kb {
      assert ka[|ka| - 1] == kb[|kb| - 1];
      assert ka[0] == kb[0];
    }
    if ka == UnknownLabel {
      assert ka[0] == 'H';
    }
  }

  // ---------------------------------------------------------------------
  // Newest first

  /** The fields of an order the ordering and its entry use: the trip flow
      stores a departure time, the delivery flow none. */
  datatype HistoryOrder =
    HistoryOrder(id: int, createdAt: int, status: Option<Lifecycle.Status>, departure: Option<int>)

  predicate NewestFirst(s: seq<HistoryOrder>) {
    forall i, j :: 0 <= i < j < |s| ==> s[i].createdAt >= s[j].createdAt
  }

  /** Put `x` before the first order created no later than it. */
  function Insert(x: HistoryOrder, s: seq<HistoryOrder>): (r: seq<HistoryOrder>)
    ensures multiset(r) == multiset(s) + multiset{x}
  {
    if s == [] || s[0].createdAt <= x.createdAt then [x] + s
    else
      assert s == [s[0]] + s[1..];
      [s[0]] + Insert(x, s[1..])
  }

  lemma {:induction false} InsertKeepsOrder(x: HistoryOrder, s: seq<HistoryOrder>)
    requires NewestFirst(s)
    ensures NewestFirst(Insert(x, s))
  {
    if s == [] || s[0].createdAt <= x.createdAt {
      assert forall j :: 0 <= j < |s| ==> s[j].createdAt <= x.createdAt;
    } else {
      var rest := Insert(x, s[1..]);
      InsertKeepsOrder(x, s[1..]);
      // the head of `rest` is `x` or `s[1]`, both no newer than `s[0]`
      assert rest[0].createdAt <= s[0].createdAt by {
        if s[1..] != [] && s[1..][0].createdAt > x.createdAt {
          assert rest[0] == s[1];
        }
      }
      var r := [s[0]] + rest;
      forall i, j | 0 <= i < j < |r|
        ensures r[i].createdAt >= r[j].createdAt
      {
        if i == 0 {
          assert r[j] == rest[j - 1];
          assert rest[0].createdAt >= rest[j - 1].createdAt;
        } else {
          assert r[i] == rest[i - 1] && r[j] == rest[j - 1];
        }
      }
    }
  }

  /** `sorted(orders, key=createdAt, reverse=True)`. */
  function SortNewestFirst(s: seq<HistoryOrder>): (r: seq<HistoryOrder>)
    ensures multiset(r) == multiset(s)
  {
    if s == [] then []
    else
      assert s == [s[0]] + s[1..];
      Insert(s[0], SortNewestFirst(s[1..]))
  }

  /** The history lists the passenger's orders, each exactly as often as
      it occurs, newest first. */
  lemma {:induction false} SortedNewestFirst(s: seq<HistoryOrder>)
    ensures NewestFirst(SortNewestFirst(s))
    ensures multiset(SortNewestFirst(s)) == multiset(s)
  {
    if s != [] {
      SortedNewestFirst(s[1..]);
      InsertKeepsOrder(s[0], SortNewestFirst(s[1..]));
    }
  }

  // ---------------------------------------------------------------------
  // Paging

  const ItemsPerPage: nat := 3

  /** Python's `s[a:b]` for a step of one: negative bounds count from the
      end, and bounds are clamped to the sequence. */
  function Slice<T>(s: seq<T>, a: int, b: int): (r: seq<T>)
    ensures |r| <= |s|
    ensures 0 <= a <= b <= |s| ==> r == s[a..b]
    ensures multiset(r) <= multiset(s)
  {
    var lo := if a < 0 then (if a + |s| < 0 then 0 else a + |s|) else (if a > |s| then |s| else a);
    var hi := if b < 0 then (if b + |s| < 0 then 0 else b + |s|) else (if b > |s| then |s| else b);
    if hi <= lo then []
    else
      assert s == s[..lo] + s[lo..hi] + s[hi..];
      s[lo..hi]
  }

  /** `orders[page * n : page * n + n]`. */
  function PageItems<T>(orders: seq<T>, page: int, n: nat): (r: seq<T>)
    ensures page >= 0 ==> |r| <= n
  {
    Slice(orders, page * n, page * n + n)
  }

  /** `(len(orders) + n - 1) // n`: the number of pages. */
  function TotalPages(count: nat, n: nat): (r: nat)
    requires n > 0
    ensures r == 0 <==> count == 0
    ensures r > 0 ==> (r - 1) * n < count <= r * n
  {
    var q := (count + n - 1) / n;
    assert q * n <= count + n - 1 < q * n + n;
    q
  }

  lemma DivMod(i: nat, n: nat)
    requires n > 0
    ensures (i / n) * n + i % n == i && 0 <= i % n < n
  {
  }

  lemma MulMonotone(a: nat, b: nat, n: nat)
    requires a <= b
    ensures a * n <= b * n
  {
  }

  /** The page count is the least number of pages of `n` that hold all
      the orders. */
  lemma PageBelowTotal(count: nat, n: nat, p: nat, lo: nat)
    requires n > 0 && lo == p * n && lo < count
    ensures p < TotalPages(count, n)
  {
    var total := TotalPages(count, n);
    if p >= total {
      MulMonotone(total, p, n);
    }
  }

  /** Every order is shown on page `i / n`, at position `i % n`. */
  lemma ItemOnItsPage<T>(orders: seq<T>, n: nat, i: nat)
    requires n > 0 && i < |orders|
    ensures i / n < TotalPages(|orders|, n)
    ensures i % n < |PageItems(orders, i / n, n)|
    ensures PageItems(orders, i / n, n)[i % n] == orders[i]
  {
    var p := i / n;
    var k := i % n;
    var lo := p * n;
    DivMod(i, n);
    assert lo + k == i;
    PageBelowTotal(|orders|, n, p, lo);
    var hi := if lo + n > |orders| then |orders| else lo + n;
    assert PageItems(orders, p, n) == Slice(orders, lo, lo + n);
    assert Slice(orders, lo, lo + n) == orders[lo..hi];
  }

  /** Every page below the page count shows at least one order. */
  lemma PagesNotEmpty<T>(orders: seq<T>, n: nat, page: nat)
    requires n > 0 && page < TotalPages(|orders|, n)
    ensures PageItems(orders, page, n) != []
  {
    var total := TotalPages(|orders|, n);
    MulMonotone(page, total - 1, n);
    var lo := page * n;
    assert lo < |orders|;
    assert PageItems(orders, page, n) == Slice(orders, lo, lo + n);
  }

  // ---------------------------------------------------------------------
  // Showing a page

  /** What `show_paginated_history` does for a page. */
  datatype PageView =
    | Shown(items: seq<HistoryOrder>, total: nat)  // the page's entries and the page count
    | RenderFails                                  // `departureTime.strftime` raised

  /** `show_paginated_history`: each order on the page is written with its
      departure time, which raises for an order without one (every
      delivery), so then nothing is sent. */
  function ShowPage(orders: seq<HistoryOrder>, page: int): (r: PageView)
    ensures r.Shown? <==> forall o :: o in PageItems(orders, page, ItemsPerPage) ==> o.departure.Some?
    ensures r.Shown? ==> r.items == PageItems(orders, page, ItemsPerPage)
  {
    var items := PageItems(orders, page, ItemsPerPage);
    if forall o :: o in items ==> o.departure.Some? then Shown(items, TotalPages(|orders|, ItemsPerPage))
    else RenderFails
  }

  /** The page holding an order without a departure time can never be
      shown. */
  lemma UndatedOrderBreaksItsPage(orders: seq<HistoryOrder>, i: nat)
    requires i < |orders| && orders[i].departure.None?
    ensures ShowPage(orders, i / ItemsPerPage) == RenderFails
  {
    ItemOnItsPage(orders, ItemsPerPage, i);
    assert orders[i] in PageItems(orders, i / ItemsPerPage, ItemsPerPage);
  }

  /** A history of trips only, all with a departure time, shows every
      page. */
  lemma DatedHistoryShows(orders: seq<HistoryOrder>, page: int)
    requires forall i :: 0 <= i < |orders| ==> orders[i].departure.Some?
    ensures ShowPage(orders, page).Shown?
  {
    var items := PageItems(orders, page, ItemsPerPage);
    forall o | o in items
      ensures o.departure.Some?
    {
      assert o in multiset(items);
      assert o in multiset(orders);
      var i :| 0 <= i < |orders| && orders[i] == o;
    }
  }

  // ---------------------------------------------------------------------
  // The keyboard

  datatype Button =
    | Prev(target: int)                      // "⬅️"
    | Next(target: int)                      // "➡️"
    | PageButton(target: int, current: bool) // "• p+1 •" or "p+1"
    | FirstPage                              // "1️⃣"
    | LastPage(target: int)                  // the page count
    | Ellipsis                               // "...", does nothing
    | Close                                  // "❌ Yopish"

  /** The page the button opens, if any. */
  function Target(b: Button): Option<int> {
    match b
    case Prev(t) => Some(t)
    case Next(t) => Some(t)
    case PageButton(t, _) => Some(t)
    case FirstPage => Some(0)
    case LastPage(t) => Some(t)
    case Ellipsis => None
    case Close => None
  }

  /** The text of a page button: the page number counted from one,
      between bullets on the current page. */
  function PageLabel(target: nat, current: bool): string {
    if current then "• " + NatToString(target + 1) + " •" else NatToString(target + 1)
  }

  /** Only the current page's label carries the bullets, and every label
      shows the page number counted from one. */
  lemma PageLabelMarksCurrent(target: nat, current: bool)
    ensures PageLabel(target, current)[0] == '•' <==> current
    ensures current ==> PageLabel(target, current)[2..|PageLabel(target, current)| - 2] == NatToString(target + 1)
    ensures !current ==> ParseDigits(PageLabel(target, current)) == target + 1
  {
    var digits := NatToString(target + 1);
    assert IsDigit(digits[0]);
    ParseNatToString(target + 1);
  }

  /** The window of page buttons `[start_page, end_page)`. */
  function Window(page: int, total: nat): (w: (int, int))
  {
    var maxButtons := if total < 5 then total else 5;
    var start0 := if page - 2 < 0 then 0 else page - 2;
    var end := if start0 + maxButtons < total then start0 + maxButtons else total;
    var start := if end - start0 < maxButtons then (if end - maxButtons < 0 then 0 else end - maxButtons) else start0;
    (start, end)
  }

  /** For a page in range, the window holds `min(5, total)` pages, stays
      inside `[0, total)` and contains the page. */
  lemma WindowBounds(page: int, total: nat)
    requires 0 <= page < total
    ensures var (start, end) := Window(page, total);
      0 <= start <= page < end <= total
      && end - start == (if total < 5 then total else 5)
  {
  }

  /** One button per page of the window; only the current page is marked. */
  function PageRow(start: int, end: int, page: int): (r: seq<Button>)
    requires start <= end
    decreases end - start
    ensures |r| == end - start
    ensures forall i :: 0 <= i < |r| ==> r[i] == PageButton(start + i, start + i == page)
  {
    if start == end then [] else PageRow(start, end - 1, page) + [PageButton(end - 1, end - 1 == page)]
  }

  /** The arrow row. */
  function NavRow(page: int, total: nat): seq<Button> {
    (if page > 0 then [Prev(page - 1)] else [])
    + (if page < total - 1 then [Next(page + 1)] else [])
  }

  /** The first/last row shown when there are more than five pages. */
  function FirstLastRow(page: int, total: nat, start: int, end: int): seq<Button> {
    if total <= 5 then []
    else
      (if page > 2 then [FirstPage] + (if start > 1 then [Ellipsis] else []) else [])
      + (if page < total - 3 && total > 6
         then (if end < total - 1 then [Ellipsis] else []) + [LastPage(total - 1)]
         else [])
  }

  /** The rows of the history keyboard, top to bottom. */
  function Keyboard(page: int, total: nat): seq<seq<Button>> {
    if total > 1 then
      var (start, end) := Window(page, total);
      var fl := FirstLastRow(page, total, start, end);
      var nav := NavRow(page, total);
      (if fl != [] then [fl] else []) + [PageRow(start, end, page)] + (if nav != [] then [nav] else []) + [[Close]]
    else
      [[Close]]
  }

  /** The markup `show_paginated_history` builds, page buttons by a loop. */
  method HistoryKeyboard(page: int, total: nat) returns (rows: seq<seq<Button>>)
    requires 0 <= page < total
    ensures rows == Keyboard(page, total)
  {
    rows := [];
    if total > 1 {
      var navRow := [];
      if page > 0 {
        navRow := navRow + [Prev(page - 1)];
      }
      var maxButtons := if total < 5 then total else 5;
      var start := if page - 2 < 0 then 0 else page - 2;
      var end := if start + maxButtons < total then start + maxButtons else total;
      if end - start < maxButtons {
        start := if end - maxButtons < 0 then 0 else end - maxButtons;
      }
      assert (start, end) == Window(page, total);
      WindowBounds(page, total);
      var pageButtons := [];
      var p := start;
      while p < end
        invariant start <= p <= end
        invariant pageButtons == PageRow(start, p, page)
      {
        pageButtons := pageButtons + [PageButton(p, p == page)];
        p := p + 1;
      }
      if page < total - 1 {
        navRow := navRow + [Next(page + 1)];
      }
      var firstLast := [];
      if total > 5 {
        if page > 2 {
          firstLast := firstLast + [FirstPage];
          if start > 1 {
            firstLast := firstLast + [Ellipsis];
          }
        }
        if page < total - 3 && total > 6 {
          if end < total - 1 {
            firstLast := firstLast + [Ellipsis];
          }
          firstLast := firstLast + [LastPage(total - 1)];
        }
      }
      assert firstLast == FirstLastRow(page, total, start, end);
      assert navRow == NavRow(page, total);
      if firstLast != [] {
        rows := rows + [firstLast];
      }
      rows := rows + [pageButtons];
      if navRow != [] {
        rows := rows + [navRow];
      }
    }
    rows := rows + [[Close]];
  }

  /** The close button is always the last row; a single page has nothing
      else, and with more pages the window's row is there. */
  lemma KeyboardRows(page: int, total: nat)
    requires 0 <= page < total
    ensures |Keyboard(page, total)| >= 1 && Keyboard(page, total)[|Keyboard(page, total)| - 1] == [Close]
    ensures total == 1 ==> Keyboard(page, total) == [[Close]]
    ensures total > 1 ==> PageRow(Window(page, total).0, Window(page, total).1, page) in Keyboard(page, total)
  {
    if total > 1 {
      WindowBounds(page, total);
    }
  }

  /** The left arrow appears exactly when there is an earlier page, the
      right arrow exactly when there is a later one. */
  lemma NavArrows(page: int, total: nat)
    requires 0 <= page < total
    ensures Prev(page - 1) in NavRow(page, total) <==> page > 0
    ensures Next(page + 1) in NavRow(page, total) <==> page < total - 1
    ensures forall b :: b in NavRow(page, total) ==> b == Prev(page - 1) || b == Next(page + 1)
  {
  }

  /** The window's buttons mark the current page and no other. */
  lemma CurrentPageMarked(page: int, total: nat)
    requires 0 <= page < total
    ensures var (start, end) := Window(page, total);
      PageButton(page, true) in PageRow(start, end, page)
      && forall b :: b in PageRow(start, end, page) && b.current ==> b == PageButton(page, true)
  {
    var (start, end) := Window(page, total);
    WindowBounds(page, total);
    var pr := PageRow(start, end, page);
    assert pr[page - start] == PageButton(page, true);
  }

  lemma KeyboardRowKinds(page: int, total: nat, row: seq<Button>)
    requires 1 < total && row in Keyboard(page, total)
    ensures var (start, end) := Window(page, total);
      row == FirstLastRow(page, total, start, end) || row == PageRow(start, end, page)
      || row == NavRow(page, total) || row == [Close]
  {
  }

  /** Every button opens a page that exists. */
  lemma TargetsInRange(page: int, total: nat)
    requires 0 <= page < total
    ensures forall row, b :: row in Keyboard(page, total) && b in row && Target(b).Some? ==>
      0 <= Target(b).value < total
  {
    forall row, b | row in Keyboard(page, total) && b in row && Target(b).Some?
      ensures 0 <= Target(b).value < total
    {
      if total > 1 {
        var (start, end) := Window(page, total);
        WindowBounds(page, total);
        KeyboardRowKinds(page, total, row);
        if row == PageRow(start, end, page) {
          var i :| 0 <= i < |row| && row[i] == b;
        }
      }
    }
  }

  // ---------------------------------------------------------------------
  // Callback data

  const PagePrefix: string := "history_page:"

  /** The callback data each button carries. */
  function CallbackData(b: Button): string {
    match b
    case Prev(t) => PagePrefix + IntText(t)
    case Next(t) => PagePrefix + IntText(t)
    case PageButton(t, _) => PagePrefix + IntText(t)
    case FirstPage => "history_page:0"
    case LastPage(t) => PagePrefix + IntText(t)
    case Ellipsis => "history_none"
    case Close => "history_close"
  }

  /** `str(t)` for the integers the buttons carry. */
  function IntText(t: int): string {
    if t < 0 then "-" + NatToString(-t) else NatToString(t)
  }

  /** The text before the first occurrence of `c`, or the whole text. */
  function UpTo(s: string, c: char): (r: string)
    ensures |r| <= |s| && r == s[..|r|]
    ensures c !in r
    ensures |r| < |s| ==> s[|r|] == c
  {
    if s == [] || s[0] == c then [] else [s[0]] + UpTo(s[1..], c)
  }

  datatype Action = CloseHistory | NoAction | GoTo(page: int) | Fails | NotHandled

  /** `process_pagination_callback` on data starting with `history_`:
      what it does, with `Fails` where `int()` or the index raises. Only
      unsigned digit strings are read as numbers here. */
  function PaginationAction(data: string): Action {
    var action := UpTo(data, ':');
    if action == "history_close" then CloseHistory
    else if action == "history_none" then NoAction
    else if action == "history_page" then
      if |action| == |data| then Fails
      else
        var field := UpTo(data[|action| + 1..], ':');
        if field != [] && AllDigits(field) then GoTo(ParseDigits(field)) else Fails
    else NotHandled
  }

  lemma {:induction false} UpToStopsAtColon(head: string, tail: string)
    requires ':' !in head
    ensures UpTo(head + ":" + tail, ':') == head
  {
    if head != [] {
      assert (head + ":" + tail)[1..] == head[1..] + ":" + tail;
      UpToStopsAtColon(head[1..], tail);
    }
  }

  lemma {:induction false} UpToWithoutColon(s: string)
    requires ':' !in s
    ensures UpTo(s, ':') == s
  {
    if s != [] {
      UpToWithoutColon(s[1..]);
    }
  }

  /** `history_page:` followed by a page number opens that page. */
  lemma PageDataOpensPage(t: nat)
    ensures PaginationAction(PagePrefix + NatToString(t)) == GoTo(t)
  {
    var digits := NatToString(t);
    var data := PagePrefix + digits;
    var head := "history_page";
    assert data == head + ":" + digits;
    assert ':' !in head;
    assert ':' !in digits by {
      forall i | 0 <= i < |digits|
        ensures digits[i] != ':'
      {
        assert IsDigit(digits[i]);
      }
    }
    UpToStopsAtColon(head, digits);
    assert head != "history_close" && head != "history_none" by {
      assert head[8] == 'p';
    }
    assert data[|head| + 1..] == digits;
    UpToWithoutColon(digits);
    ParseNatToString(t);
  }

  /** Every button of the keyboard does what it shows: a page button or
      arrow opens its target page, the ellipsis does nothing, and close
      closes. */
  lemma ButtonRoundTrip(b: Button)
    requires Target(b).Some? ==> Target(b).value >= 0
    ensures Target(b).Some? ==> PaginationAction(CallbackData(b)) == GoTo(Target(b).value)
    ensures b == Ellipsis ==> PaginationAction(CallbackData(b)) == NoAction
    ensures b == Close ==> PaginationAction(CallbackData(b)) == CloseHistory
  {
    match b
    case Ellipsis =>
      UpToWithoutColon("history_none");
    case Close =>
      UpToWithoutColon("history_close");
    case FirstPage =>
      assert NatToString(0) == "0";
      PageDataOpensPage(0);
    case _ =>
      PageDataOpensPage(Target(b).value);
  }

  /** Pressing any button of the keyboard of an in-range page either
      closes the history, does nothing, or opens another in-range page;
      so the page `show_paginated_history` is called with always exists. */
  lemma PressStaysInRange(page: int, total: nat, row: seq<Button>, b: Button)
    requires 0 <= page < total
    requires row in Keyboard(page, total) && b in row
    ensures PaginationAction(CallbackData(b)) in {CloseHistory, NoAction}
      || (PaginationAction(CallbackData(b)).GoTo? && 0 <= PaginationAction(CallbackData(b)).page < total)
  {
    TargetsInRange(page, total);
    ButtonRoundTrip(b);
  }

  /** A press on the history as the handler runs it: a page is opened only
      when it can be shown; otherwise the press fails, after the page number
      has been stored. */
  function Press(orders: seq<HistoryOrder>, data: string): (r: Action)
    ensures r.GoTo? ==> PaginationAction(data) == r && ShowPage(orders, r.page).Shown?
    ensures PaginationAction(data).GoTo? && ShowPage(orders, PaginationAction(data).page) == RenderFails ==>
      r == Fails
    ensures !PaginationAction(data).GoTo? ==> r == PaginationAction(data)
  {
    var a := PaginationAction(data);
    if a.GoTo? && ShowPage(orders, a.page) == RenderFails then Fails else a
  }

  /** On a history whose orders all have a departure time, pressing any
      button of a shown page closes, does nothing or opens an in-range page;
      it never fails. */
  lemma PressOnDatedHistory(orders: seq<HistoryOrder>, page: int, row: seq<Button>, b: Button)
    requires forall i :: 0 <= i < |orders| ==> orders[i].departure.Some?
    requires 0 <= page < TotalPages(|orders|, ItemsPerPage)
    requires row in Keyboard(page, TotalPages(|orders|, ItemsPerPage)) && b in row
    ensures Press(orders, CallbackData(b)) in {CloseHistory, NoAction}
      || (Press(orders, CallbackData(b)).GoTo? && 0 <= Press(orders, CallbackData(b)).page < TotalPages(|orders|, ItemsPerPage))
  {
    PressStaysInRange(page, TotalPages(|orders|, ItemsPerPage), row, b);
    var a := PaginationAction(CallbackData(b));
    if a.GoTo? {
      DatedHistoryShows(orders, a.page);
    }
  }

  // ---------------------------------------------------------------------
  // Opening the history

  datatype HistoryStart =
    | NotPassenger                                   // "only for passengers"
    | NoHistory                                      // "no order history"
    | Showing(orders: seq<HistoryOrder>, page: nat)  // the first page
    | FirstPageFails                                 // the first page raised

  /** `show_history`: only a registered passenger sees a history; the
      passenger's orders are kept newest first and the first page shown,
      unless writing it raises. */
  function StartHistory(user: Option<Lifecycle.User>, orders: seq<HistoryOrder>): (r: HistoryStart)
    ensures r == NotPassenger <==> user.None? || user.value.role != Lifecycle.Passenger
    ensures r == NoHistory <==> user.Some? && user.value.role == Lifecycle.Passenger && orders == []
    ensures r.Showing? || r == FirstPageFails ==> orders != []
    ensures r == FirstPageFails ==> ShowPage(SortNewestFirst(orders), 0) == RenderFails
    ensures r.Showing? ==>
      r.page == 0 && r.orders != [] && NewestFirst(r.orders) && multiset(r.orders) == multiset(orders)
      && ShowPage(r.orders, 0).Shown?
  {
    if user.None? || user.value.role != Lifecycle.Passenger then NotPassenger
    else
      var sorted := SortNewestFirst(orders);
      SortedNewestFirst(orders);
      if sorted == [] then
        assert |multiset(orders)| == 0;
        NoHistory
      else if ShowPage(sorted, 0) == RenderFails then FirstPageFails
      else Showing(sorted, 0)
  }

  /** The first page's orders all have a departure time. */
  predicate FirstPageDated(orders: seq<HistoryOrder>) {
    forall i :: 0 <= i < |orders| && i < ItemsPerPage ==> orders[i].departure.Some?
  }

  /** The first page shows exactly when the first three orders all have a
      departure time. */
  lemma FirstPageShownIffDated(orders: seq<HistoryOrder>)
    ensures ShowPage(orders, 0).Shown? <==> FirstPageDated(orders)
  {
    var hi := if |orders| < ItemsPerPage then |orders| else ItemsPerPage;
    var items := PageItems(orders, 0, ItemsPerPage);
    assert items == orders[..hi];
    if forall i :: 0 <= i < |orders| && i < ItemsPerPage ==> orders[i].departure.Some? {
      forall o | o in items
        ensures o.departure.Some?
      {
        var k :| 0 <= k < hi && items[k] == o;
        assert orders[k] == o;
      }
    } else {
      var i :| 0 <= i < |orders| && i < ItemsPerPage && orders[i].departure.None?;
      assert items[i] == orders[i];
    }
  }

  /** A passenger with orders sees the history exactly when the three
      newest all have a departure time: one delivery among them and the
      history never opens. */
  lemma HistoryOpensIffNewestDated(user: Lifecycle.User, orders: seq<HistoryOrder>)
    requires user.role == Lifecycle.Passenger && orders != []
    ensures StartHistory(Some(user), orders).Showing? <==> FirstPageDated(SortNewestFirst(orders))
  {
    var sorted := SortNewestFirst(orders);
    FirstPageShownIffDated(sorted);
    assert sorted != [] by {
      assert orders[0] in multiset(orders);
    }
    assert StartHistory(Some(user), orders)
      == if ShowPage(sorted, 0) == RenderFails then FirstPageFails else Showing(sorted, 0);
  }
}
