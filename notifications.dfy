/** The notifications page (src/pages/Notifications.tsx): a fixed list loaded after a
    delay, and two ways of marking entries read. */
module Notifications {
  import opened Wrappers

  datatype Kind = CommentKind | LikeKind | SubscribeKind | UploadKind | SystemKind

  datatype Notification = Notification(
    id: string,
    kind: Kind,
    title: string,
    message: string,
    timestamp: string,
    read: bool,
    avatar: Option<string>,
    videoThumbnail: Option<string>)

  /** `{ ...notif, read: true }`. */
  function AsRead(n: Notification): Notification {
    n.(read := true)
  }

  /** `markAsRead`'s map: entries with the given id become read. */
  function MarkRead(ns: seq<Notification>, id: string): seq<Notification> {
    seq(|ns|, i requires 0 <= i < |ns| => if ns[i].id == id then AsRead(ns[i]) else ns[i])
  }

  /** `markAllAsRead`'s map: every entry becomes read. */
  function MarkAllRead(ns: seq<Notification>): seq<Notification> {
    seq(|ns|, i requires 0 <= i < |ns| => AsRead(ns[i]))
  }

  /** Two notifications agree on everything except, possibly, `read`. */
  predicate SameButRead(a: Notification, b: Notification) {
    a.(read := true) == b.(read := true)
  }

  /** markAsRead keeps length and order; an entry with the id becomes read and keeps every
      other field; every other entry is unchanged. */
  lemma MarkReadMeaning(ns: seq<Notification>, id: string)
    ensures |MarkRead(ns, id)| == |ns|
    ensures forall i :: 0 <= i < |ns| && ns[i].id == id ==>
              MarkRead(ns, id)[i].read && SameButRead(MarkRead(ns, id)[i], ns[i])
    ensures forall i :: 0 <= i < |ns| && ns[i].id != id ==> MarkRead(ns, id)[i] == ns[i]
  {
  }

  /** markAllAsRead keeps length and order, makes every entry read and changes no other field. */
  lemma MarkAllReadMeaning(ns: seq<Notification>)
    ensures |MarkAllRead(ns)| == |ns|
    ensures forall i :: 0 <= i < |ns| ==> MarkAllRead(ns)[i].read && SameButRead(MarkAllRead(ns)[i], ns[i])
  {
  }

  /** Both maps are idempotent. */
  lemma MarkIdempotent(ns: seq<Notification>, id: string)
    ensures MarkRead(MarkRead(ns, id), id) == MarkRead(ns, id)
    ensures MarkAllRead(MarkAllRead(ns)) == MarkAllRead(ns)
  {
    assert forall i :: 0 <= i < |ns| ==> MarkRead(MarkRead(ns, id), id)[i] == MarkRead(ns, id)[i];
    assert forall i :: 0 <= i < |ns| ==> MarkAllRead(MarkAllRead(ns))[i] == MarkAllRead(ns)[i];
  }

  /** Marking one entry and marking all commute with each other and among themselves: the
      order of clicks does not matter, and marking all absorbs any single mark. */
  lemma MarksCommute(ns: seq<Notification>, a: string, b: string)
    ensures MarkRead(MarkRead(ns, a), b) == MarkRead(MarkRead(ns, b), a)
    ensures MarkAllRead(MarkRead(ns, a)) == MarkAllRead(ns)
    ensures MarkRead(MarkAllRead(ns), a) == MarkAllRead(ns)
  {
    assert forall i :: 0 <= i < |ns| ==> MarkRead(MarkRead(ns, a), b)[i] == MarkRead(MarkRead(ns, b), a)[i];
    assert forall i :: 0 <= i < |ns| ==> MarkAllRead(MarkRead(ns, a))[i] == MarkAllRead(ns)[i];
    assert forall i :: 0 <= i < |ns| ==> MarkRead(MarkAllRead(ns), a)[i] == MarkAllRead(ns)[i];
  }

  /** The number of unread entries. */
  function Unread(ns: seq<Notification>): nat {
    if ns == [] then 0 else (if ns[0].read then 0 else 1) + Unread(ns[1..])
  }

  /** The number of unread entries with the given id. */
  function UnreadWith(ns: seq<Notification>, id: string): nat {
    if ns == [] then 0 else (if ns[0].id == id && !ns[0].read then 1 else 0) + UnreadWith(ns[1..], id)
  }

  /** Marking one id read lowers the unread count by exactly the number of unread entries
      with that id, so by at least one when it hits an unread entry, and never raises it;
      marking all leaves none unread. */
  lemma {:induction false} UnreadAfterMarks(ns: seq<Notification>, id: string)
    ensures Unread(MarkRead(ns, id)) == Unread(ns) - UnreadWith(ns, id)
    ensures Unread(MarkRead(ns, id)) <= Unread(ns)
    ensures (exists i :: 0 <= i < |ns| && ns[i].id == id && !ns[i].read) ==> Unread(MarkRead(ns, id)) < Unread(ns)
    ensures Unread(MarkAllRead(ns)) == 0
  {
    if ns != [] {
      UnreadAfterMarks(ns[1..], id);
      assert MarkRead(ns, id)[1..] == MarkRead(ns[1..], id);
      assert MarkAllRead(ns)[1..] == MarkAllRead(ns[1..]);
      if i :| 0 <= i < |ns| && ns[i].id == id && !ns[i].read {
        if i > 0 {
          assert ns[1..][i - 1] == ns[i];
        }
      }
    }
  }

  /** The list the page loads. */
  const InitialNotifications: seq<Notification> := [
    Notification("1", CommentKind, "Novo comentário",
                 "João Silva comentou no seu vídeo \"Como fazer um bolo\"", "2 horas atrás", false, None, None),
    Notification("2", SubscribeKind, "Nova inscrição",
                 "Maria Santos se inscreveu no seu canal", "5 horas atrás", false, None, None),
    Notification("3", LikeKind, "Curtida no vídeo",
                 "Pedro Oliveira curtiu seu vídeo \"Tutorial React\"", "1 dia atrás", true, None, None),
    Notification("4", SystemKind, "Vídeo processado",
                 "Seu vídeo foi processado com sucesso e está disponível", "2 dias atrás", true, None, None)
  ]

  /** Four entries with ids 1 to 4 in order; 1 and 2 unread, 3 and 4 read. */
  lemma InitialNotificationsShape()
    ensures |InitialNotifications| == 4
    ensures forall i :: 0 <= i < 4 ==> InitialNotifications[i].id == [('1' as int + i) as char]
    ensures !InitialNotifications[0].read && !InitialNotifications[1].read
    ensures InitialNotifications[2].read && InitialNotifications[3].read
    ensures Unread(InitialNotifications) == 2
  {
    var ns := InitialNotifications;
    assert ns[1..][1..][1..][1..] == [];
  }

  class NotificationsPage {
    var notifications: seq<Notification>
    var loading: bool

    constructor()
      ensures notifications == [] && loading
    {
      notifications := [];
      loading := true;
    }

    /** The delayed load: the fixed list, then loading ends. */
    method Load()
      modifies this`notifications, this`loading
      ensures notifications == InitialNotifications && !loading
    {
      notifications := InitialNotifications;
      loading := false;
    }

    /** markAsRead. */
    method MarkAsRead(id: string)
      modifies this`notifications
      ensures notifications == MarkRead(old(notifications), id)
    {
      notifications := MarkRead(notifications, id);
    }

    /** markAllAsRead. */
    method MarkAllAsRead()
      modifies this`notifications
      ensures notifications == MarkAllRead(old(notifications))
    {
      notifications := MarkAllRead(notifications);
    }
  }
}
