/**
 * The mobile dashboard's state: which notifications have been read, the
 * history filter and search, and the screen name that selects a
 * transaction's detail page. Every handler replaces whole state values,
 * so the state is a record and the handlers are functions on it.
 */
module Dashboard {
  import opened Wrappers
  import opened JsText
  import opened Seqs

  datatype Notification = Notification(id: int, title: string)

  datatype Tx = Tx(id: int, amount: string, to: string, recipient: string, status: string, date: string)

  const Notifications: seq<Notification> := [
    Notification(1, "Payment completed"),
    Notification(2, "Bulk payout attention"),
    Notification(3, "Funds received")
  ]

  datatype View = View(
    currentTab: string, currentScreen: string, menuOpen: bool, notificationOpen: bool,
    readNotifications: seq<int>, searchQuery: string, selectedFilter: string)

  const Initial: View := View("home", "main", false, false, [], "", "All")

  predicate NoDuplicates(s: seq<int>) {
    forall i, j :: 0 <= i < j < |s| ==> s[i] != s[j]
  }

  // ---------------------------------------------------------------------------
  // Notifications
  // ---------------------------------------------------------------------------

  /** `unreadCount`: how many notifications have an id missing from the read list. */
  function UnreadCount(ns: seq<Notification>, read: seq<int>): (c: nat)
    ensures c <= |ns|
  {
    |Filter(ns, (n: Notification) => n.id !in read)|
  }

  /** The unread count is zero exactly when every notification's id is in the read list. */
  lemma NoneUnreadIff(ns: seq<Notification>, read: seq<int>)
    ensures UnreadCount(ns, read) == 0 <==> forall n <- ns :: n.id in read
  {
    var r := Filter(ns, (n: Notification) => n.id !in read);
    if exists n <- ns :: n.id !in read {
      var n :| n in ns && n.id !in read;
      assert n in r;
    }
    if r != [] {
      assert r[0] in ns && r[0].id !in read;
    }
  }

  /**
   * `markAsRead(id)`: the id is appended only when absent, so marking twice
   * is the same as marking once and the list never gains a duplicate.
   */
  function MarkAsRead(read: seq<int>, id: int): (r: seq<int>)
    ensures id in r
    ensures forall x :: x in r <==> x in read || x == id
    ensures |read| <= |r| <= |read| + 1 && r[..|read|] == read
    ensures id in read ==> r == read
    ensures NoDuplicates(read) ==> NoDuplicates(r)
  {
    if id in read then read else read + [id]
  }

  function CountId(ns: seq<Notification>, id: int): nat {
    |Filter(ns, (n: Notification) => n.id == id)|
  }

  /** Marking an unread id lowers the unread count by the number of notifications carrying it; a read id changes nothing. */
  lemma {:induction false} MarkAsReadCount(ns: seq<Notification>, read: seq<int>, id: int)
    ensures UnreadCount(ns, MarkAsRead(read, id)) == UnreadCount(ns, read) - (if id in read then 0 else CountId(ns, id))
    decreases |ns|
  {
    if ns != [] && id !in read {
      MarkAsReadCount(ns[1..], read, id);
      var r := MarkAsRead(read, id);
      assert Filter(ns, (n: Notification) => n.id !in r)
          == (if ns[0].id !in r then [ns[0]] else []) + Filter(ns[1..], (n: Notification) => n.id !in r);
      assert Filter(ns, (n: Notification) => n.id !in read)
          == (if ns[0].id !in read then [ns[0]] else []) + Filter(ns[1..], (n: Notification) => n.id !in read);
      assert Filter(ns, (n: Notification) => n.id == id)
          == (if ns[0].id == id then [ns[0]] else []) + Filter(ns[1..], (n: Notification) => n.id == id);
    }
  }

  /** Opening one notification of the three leaves two unread. */
  lemma MarkOneOfThree()
    ensures UnreadCount(Notifications, []) == 3
    ensures UnreadCount(Notifications, MarkAsRead([], 2)) == 2
  {
    MarkAsReadCount(Notifications, [], 2);
    assert UnreadCount(Notifications, []) == 3 by {
      FilterKeepsAll(Notifications, (n: Notification) => n.id !in []);
    }
    assert CountId(Notifications, 2) == 1 by {
      var two := (n: Notification) => n.id == 2;
      assert Filter(Notifications, two) == Filter(Notifications[1..], two);
      assert Filter(Notifications[1..], two) == [Notifications[1]] + Filter(Notifications[2..], two);
      assert Filter(Notifications[2..], two) == Filter(Notifications[3..], two);
    }
  }

  /** `markAllAsRead`: the read list becomes the notification ids, in order. */
  function MarkAllAsRead(ns: seq<Notification>): (r: seq<int>)
    ensures |r| == |ns| && forall i :: 0 <= i < |ns| ==> r[i] == ns[i].id
  {
    seq(|ns|, i requires 0 <= i < |ns| => ns[i].id)
  }

  /** After marking all as read, nothing is unread. */
  lemma MarkAllLeavesNoneUnread(ns: seq<Notification>)
    ensures UnreadCount(ns, MarkAllAsRead(ns)) == 0
  {
    var r := MarkAllAsRead(ns);
    forall n <- ns ensures n.id in r {
      var i :| 0 <= i < |ns| && ns[i] == n;
      assert r[i] == n.id;
    }
    NoneUnreadIff(ns, r);
  }

  // ---------------------------------------------------------------------------
  // Transaction history
  // ---------------------------------------------------------------------------

  /** The status filter: 'All' lets everything through, any other value only an equal status. */
  predicate StatusPasses(filter: string, tx: Tx) {
    filter == "All" || tx.status == filter
  }

  /** The search: an empty query lets everything through, otherwise the amount or the recipient must contain it. */
  predicate SearchPasses(query: string, tx: Tx) {
    query == "" || Contains(tx.amount, query) || Contains(tx.recipient, query)
  }

  /** `filteredTransactions`: the status filter, then the search filter. */
  function FilteredTransactions(txs: seq<Tx>, filter: string, query: string): (r: seq<Tx>)
    ensures forall tx :: tx in r <==> tx in txs && StatusPasses(filter, tx) && SearchPasses(query, tx)
  {
    Filter(Filter(txs, (tx: Tx) => StatusPasses(filter, tx)), (tx: Tx) => SearchPasses(query, tx))
  }

  /** The filtered list keeps the original order. */
  lemma FilteredKeepsOrder(txs: seq<Tx>, filter: string, query: string)
    ensures IsSubsequence(FilteredTransactions(txs, filter, query), txs)
  {
    var byStatus := Filter(txs, (tx: Tx) => StatusPasses(filter, tx));
    FilterIsSubsequence(txs, (tx: Tx) => StatusPasses(filter, tx));
    FilterIsSubsequence(byStatus, (tx: Tx) => SearchPasses(query, tx));
    SubsequenceTransitive(FilteredTransactions(txs, filter, query), byStatus, txs);
  }

  /** With the filter on 'All' and no search, the whole history is shown. */
  lemma UnfilteredShowsAll(txs: seq<Tx>)
    ensures FilteredTransactions(txs, "All", "") == txs
  {
    FilterKeepsAll(txs, (tx: Tx) => StatusPasses("All", tx));
    FilterKeepsAll(txs, (tx: Tx) => SearchPasses("", tx));
  }

  // ---------------------------------------------------------------------------
  // Screen names
  // ---------------------------------------------------------------------------

  /** `transactions.find(tx => tx.id === n)`: the first transaction with that id. */
  function FindTx(txs: seq<Tx>, id: int): (r: Option<Tx>)
    ensures r.None? <==> forall tx <- txs :: tx.id != id
    ensures r.Some? ==> exists i :: 0 <= i < |txs| && txs[i] == r.value && r.value.id == id && forall j :: 0 <= j < i ==> txs[j].id != id
    decreases |txs|
  {
    if txs == [] then None
    else if txs[0].id == id then Some(txs[0])
    else
      var r := FindTx(txs[1..], id);
      if r.Some? then
        ghost var i :| 0 <= i < |txs[1..]| && txs[1..][i] == r.value && r.value.id == id && forall j :: 0 <= j < i ==> txs[1..][j].id != id;
        assert txs[i + 1] == r.value;
        r
      else r
  }

  /** What the screen name renders. */
  datatype Rendered = TransactionDetail(tx: Tx) | TransactionNotFound | Screen(name: string)

  const TxPrefix: string := "transaction-"

  lemma PrefixSplit(screen: string)
    requires StartsWith(screen, TxPrefix)
    ensures |Split(screen, '-')| >= 2
    ensures Split(screen, '-')[1] == Split(screen[|TxPrefix|..], '-')[0]
  {
    assert screen == "transaction" + ['-'] + screen[|TxPrefix|..];
    SplitFirst("transaction", '-', screen[|TxPrefix|..]);
  }

  /**
   * The dispatch in `renderScreen` and the lookup in `renderTransactionDetail`:
   * a name starting with "transaction-" takes the piece after the first '-',
   * parses it with `parseInt` and looks the number up; `NaN` matches no id.
   */
  function ResolveScreen(screen: string, txs: seq<Tx>): (r: Rendered)
    ensures r.TransactionDetail? ==> r.tx in txs
    ensures r.Screen? <==> !StartsWith(screen, TxPrefix)
    ensures r.Screen? ==> r.name == screen
  {
    if StartsWith(screen, TxPrefix) then
      PrefixSplit(screen);
      LookupId(ParseInt(Split(screen, '-')[1]), txs)
    else Screen(screen)
  }

  /** The detail page for a parsed id: the first transaction with that id, or not found. */
  function LookupId(id: Option<int>, txs: seq<Tx>): (r: Rendered)
    ensures r.TransactionDetail? <==> id.Some? && FindTx(txs, id.value).Some?
    ensures r.TransactionDetail? ==> r.tx in txs && FindTx(txs, id.value) == Some(r.tx)
    ensures !r.Screen?
  {
    match id
    case None => TransactionNotFound
    case Some(n) =>
      match FindTx(txs, n)
      case None => TransactionNotFound
      case Some(tx) => TransactionDetail(tx)
  }

  /** A "transaction-" name is resolved from the text before the next '-'. */
  lemma ResolvePrefixed(piece: string, txs: seq<Tx>)
    ensures ResolveScreen(TxPrefix + piece, txs) == LookupId(ParseInt(Split(piece, '-')[0]), txs)
  {
    var screen := TxPrefix + piece;
    assert StartsWith(screen, TxPrefix) by {
      assert screen[..|TxPrefix|] == TxPrefix;
    }
    assert screen[|TxPrefix|..] == piece;
    PrefixSplit(screen);
  }

  /** A history row's click handler: the screen name `transaction-${tx.id}`. */
  function OpenTransaction(v: View, tx: Tx): (v': View)
    ensures StartsWith(v'.currentScreen, TxPrefix)
    ensures v' == v.(currentScreen := v'.currentScreen)
  {
    assert StartsWith(TxPrefix + IntToString(tx.id), TxPrefix);
    v.(currentScreen := TxPrefix + IntToString(tx.id))
  }

  /** Opening a transaction with a non-negative id shows that transaction, when no other transaction carries its id. */
  lemma OpenThenResolve(v: View, txs: seq<Tx>, tx: Tx)
    requires tx in txs && tx.id >= 0
    requires forall t <- txs :: t.id == tx.id ==> t == tx
    ensures ResolveScreen(OpenTransaction(v, tx).currentScreen, txs) == TransactionDetail(tx)
  {
    var digits := Digits(tx.id);
    assert OpenTransaction(v, tx).currentScreen == TxPrefix + digits;
    ResolvePrefixed(digits, txs);
    assert Split(digits, '-') == [digits] by {
      assert '-' !in digits;
    }
    assert ParseInt(digits) == Some(tx.id) by {
      ParseIntDigits(tx.id, []);
      assert digits + [] == digits;
    }
    var r := FindTx(txs, tx.id);
    assert r == Some(tx) by {
      assert r.Some?;
      var i :| 0 <= i < |txs| && txs[i] == r.value && r.value.id == tx.id;
    }
  }

  /** A negative id writes "transaction--k", whose second piece is empty, so the detail page reports the transaction missing. */
  lemma NegativeIdNotFound(v: View, txs: seq<Tx>, tx: Tx)
    requires tx.id < 0
    ensures ResolveScreen(OpenTransaction(v, tx).currentScreen, txs) == TransactionNotFound
  {
    var rest := "" + ['-'] + Digits(-tx.id);
    assert OpenTransaction(v, tx).currentScreen == TxPrefix + rest;
    ResolvePrefixed(rest, txs);
    SplitFirst("", '-', Digits(-tx.id));
    assert ParseInt("") == None;
  }

  /** `parseInt` also accepts a hexadecimal piece: "transaction-0x2" looks up id 2. */
  lemma HexScreenName(txs: seq<Tx>)
    ensures ResolveScreen("transaction-0x2", txs) == LookupId(Some(2), txs)
  {
    assert "transaction-0x2" == TxPrefix + "0x2";
    ResolvePrefixed("0x2", txs);
    assert Split("0x2", '-') == ["0x2"];
    ParseHexTwo();
  }

  lemma ParseHexTwo()
    ensures ParseInt("0x2") == Some(2)
  {
    var u := "0x2";
    UnsignedDigitStart(u);
    assert u[0] == '0' && u[1] == 'x' && u[2..] == "2";
    assert IsRadixDigit('2', 16);
    DigitsThenPrefix("2", [], 16);
    assert "2" + [] == "2";
    assert ParseRadix("2", 16) == 2 by {
      assert "2"[..0] == [];
      assert DigitValue('2') == 2;
    }
  }

  // ---------------------------------------------------------------------------
  // Navigation
  // ---------------------------------------------------------------------------

  /** A bottom-nav click: that tab on the main screen, with the menu and the notification panel closed. */
  function BottomNav(v: View, tab: string): (v': View)
    ensures v'.currentTab == tab && v'.currentScreen == "main"
    ensures !v'.menuOpen && !v'.notificationOpen
    ensures v'.readNotifications == v.readNotifications && v'.searchQuery == v.searchQuery && v'.selectedFilter == v.selectedFilter
  {
    v.(currentTab := tab, currentScreen := "main", menuOpen := false, notificationOpen := false)
  }

  /** The side menu's entries: a tab, a named screen, or the notification panel. */
  datatype MenuItem = TabItem(tab: string) | ScreenItem(screen: string) | NotificationsItem

  const MenuItems: seq<MenuItem> := [
    TabItem("home"), TabItem("payments"), TabItem("analytics"), TabItem("account"),
    ScreenItem("developer"), ScreenItem("help"), NotificationsItem
  ]

  /** A side-menu click: every entry closes the menu; only the notifications entry opens the panel. */
  function MenuSelect(v: View, item: MenuItem): (v': View)
    ensures !v'.menuOpen
    ensures v'.notificationOpen == (item.NotificationsItem? || v.notificationOpen)
    ensures item.TabItem? ==> v'.currentTab == item.tab && v'.currentScreen == "main"
    ensures item.ScreenItem? ==> v'.currentTab == v.currentTab && v'.currentScreen == item.screen
    ensures item.NotificationsItem? ==> v'.currentTab == v.currentTab && v'.currentScreen == v.currentScreen
    ensures v'.readNotifications == v.readNotifications && v'.searchQuery == v.searchQuery && v'.selectedFilter == v.selectedFilter
  {
    match item
    case TabItem(tab) => v.(currentTab := tab, currentScreen := "main", menuOpen := false)
    case ScreenItem(screen) => v.(currentScreen := screen, menuOpen := false)
    case NotificationsItem => v.(notificationOpen := true, menuOpen := false)
  }
}
