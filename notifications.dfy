/** The notification panel's list view: a tab selects either every
    notification or those of one type, and the badge counts the unread ones. */
module Notifications {
  import Seqs

  datatype NotificationType = Estimate | Leave | Conflict

  datatype Notification = Notification(id: string, kind: NotificationType, title: string,
                                       description: string, timestamp: string, read: bool)

  /** The string a notification's `type` holds. */
  function TypeName(t: NotificationType): (name: string)
    ensures name != "all"
  {
    match t
    case Estimate => "estimate"
    case Leave => "leave"
    case Conflict => "conflict"
  }

  /** `filteredNotifications` for the active tab. */
  function FilteredNotifications(notifications: seq<Notification>, activeTab: string): (r: seq<Notification>)
    ensures |r| <= |notifications|
    ensures activeTab == "all" ==> r == notifications
    ensures activeTab != "all" ==>
      (forall i :: 0 <= i < |r| ==> r[i] in notifications && TypeName(r[i].kind) == activeTab)
      && (forall i :: 0 <= i < |notifications| && TypeName(notifications[i].kind) == activeTab ==> notifications[i] in r)
  {
    if activeTab == "all" then notifications
    else Seqs.Filter(notifications, (n: Notification) => TypeName(n.kind) == activeTab)
  }

  /** `unreadCount`: it reads the whole list, whatever tab is active. */
  function UnreadCount(notifications: seq<Notification>): (n: nat)
    ensures n <= |notifications|
  {
    |Seqs.Filter(notifications, (n: Notification) => !n.read)|
  }

  /** Filtering keeps the original order: the filtered list of a
      concatenation is the concatenation of the filtered lists. */
  lemma FilterKeepsOrder(a: seq<Notification>, b: seq<Notification>, activeTab: string)
    ensures FilteredNotifications(a + b, activeTab)
         == FilteredNotifications(a, activeTab) + FilteredNotifications(b, activeTab)
  {
    if activeTab != "all" {
      Seqs.FilterAppend(a, b, (n: Notification) => TypeName(n.kind) == activeTab);
    }
  }

  /** One notification shows under exactly one type tab. */
  lemma OneTypeTab(x: Notification)
    ensures |FilteredNotifications([x], "estimate")|
          + |FilteredNotifications([x], "leave")|
          + |FilteredNotifications([x], "conflict")| == 1
  {
    assert [x][1..] == [];
    match x.kind
    case Estimate =>
      assert FilteredNotifications([x], "estimate") == [x];
      assert FilteredNotifications([x], "leave") == [];
      assert FilteredNotifications([x], "conflict") == [];
    case Leave =>
      assert FilteredNotifications([x], "estimate") == [];
      assert FilteredNotifications([x], "leave") == [x];
      assert FilteredNotifications([x], "conflict") == [];
    case Conflict =>
      assert FilteredNotifications([x], "estimate") == [];
      assert FilteredNotifications([x], "leave") == [];
      assert FilteredNotifications([x], "conflict") == [x];
  }

  /** The three type tabs split the list: every notification shows under
      exactly one of them. */
  lemma {:induction false} TypeTabsPartition(notifications: seq<Notification>)
    ensures |FilteredNotifications(notifications, "estimate")|
          + |FilteredNotifications(notifications, "leave")|
          + |FilteredNotifications(notifications, "conflict")| == |notifications|
  {
    if notifications != [] {
      var x, rest := notifications[0], notifications[1..];
      assert notifications == [x] + rest;
      TypeTabsPartition(rest);
      OneTypeTab(x);
      TabLength(x, rest, "estimate");
      TabLength(x, rest, "leave");
      TabLength(x, rest, "conflict");
    }
  }

  /** The length of a tab's list over a non-empty list, split at its head. */
  lemma TabLength(x: Notification, rest: seq<Notification>, activeTab: string)
    ensures |FilteredNotifications([x] + rest, activeTab)|
         == |FilteredNotifications([x], activeTab)| + |FilteredNotifications(rest, activeTab)|
  {
    FilterKeepsOrder([x], rest, activeTab);
  }

  /** A tab that names no type shows nothing. */
  lemma UnknownTabIsEmpty(notifications: seq<Notification>, activeTab: string)
    requires activeTab != "all" && activeTab != "estimate" && activeTab != "leave" && activeTab != "conflict"
    ensures FilteredNotifications(notifications, activeTab) == []
  {
    var keep := (n: Notification) => TypeName(n.kind) == activeTab;
    assert forall i :: 0 <= i < |notifications| ==> !keep(notifications[i]);
    Seqs.FilterNone(notifications, keep);
  }

  /** The unread and the read notifications make up the list. */
  lemma UnreadPlusRead(notifications: seq<Notification>)
    ensures UnreadCount(notifications) + Seqs.Count(notifications, (n: Notification) => n.read) == |notifications|
  {
    var unread := (n: Notification) => !n.read;
    var read := (n: Notification) => n.read;
    Seqs.FilterLength(notifications, unread);
    Seqs.CountSplit(notifications, unread, read);
  }
}
