/** The notification handlers (`src/controllers/notification.controller.js`):
    the inbox of the signed-in user and the guarded delete. */
module NotificationController {
  import opened Common
  import opened ApiErrors
  import opened Records
  import opened Store
  import opened Http
  import opened Listing

  // The texts the handlers send.
  const NoRequestUser := "Unauthorized - User not found in request"
  const NotificationsFetched := "Notifications fetched"
  const NotificationDeletedSuccessfully := "Notification deleted successfully"
  const NotificationNotFound := "Notification not found"
  const NotAuthorizedDeleteNotification := "Not authorized to delete this notification"

  /** `req.user` as the gate leaves it: the stored user's id and role. */
  datatype Caller = Caller(id: Id, role: string)

  /** `{ $or: [{ recipient: id }, { recipient: 'all' }] }` */
  predicate VisibleTo(n: Notification, id: Id)
  {
    n.recipient == Person(id) || n.recipient == Everyone
  }

  /** The ids of the notifications below `n` visible to `id`, newest first. */
  function Inbox(ns: map<Id, Notification>, id: Id, n: nat): (ids: seq<Id>)
    ensures forall i :: 0 <= i < |ids| ==> ids[i] in ns && VisibleTo(ns[ids[i]], id)
    ensures forall k :: k in ns && k < n && VisibleTo(ns[k], id) ==> k in ids
    ensures StrictlyDescending(ids)
  {
    NewestFirst((set k | k in ns && VisibleTo(ns[k], id)), n)
  }

  /** `getNotifications`: a bare 401 object without a user, else the inbox. */
  function GetNotifications(ns: map<Id, Notification>, user: Option<Caller>, n: nat, now: string): (r: Response)
    ensures user.None? <==> r.status == 401
    ensures user.None? ==> r.body == Obj(map["message" := Str(NoRequestUser)])
    ensures user.Some? ==> r == Reply(200, Refs(Inbox(ns, user.value.id, n)), NotificationsFetched, now)
  {
    match user
    case None => Response(401, Obj(map["message" := Str(NoRequestUser)]))
    case Some(c) => Reply(200, Refs(Inbox(ns, c.id, n)), NotificationsFetched, now)
  }

  /** `recipient.toString() !== user._id.toString() && role !== 'admin'`:
      a broadcast's recipient reads `all`, which is never an id. */
  predicate MayDelete(n: Notification, c: Caller)
  {
    n.recipient == Person(c.id) || c.role == "admin"
  }

  /** `deleteNotification` (behind the gate, so `req.user` is set): a missing
      notification is a 404 before any authorisation, a foreign one a 403;
      both go through the error handler. */
  method DeleteNotification(db: Db, id: Id, c: Caller, now: string) returns (r: Response)
    requires db.Valid()
    modifies db`notifications
    ensures db.Valid()
    ensures id in old(db.notifications) && MayDelete(old(db.notifications)[id], c) ==>
      db.notifications == old(db.notifications) - {id} && r == Reply(200, Null, NotificationDeletedSuccessfully, now)
    ensures !(id in old(db.notifications) && MayDelete(old(db.notifications)[id], c)) ==> db.notifications == old(db.notifications)
    ensures id !in old(db.notifications) ==> r == Forward(New(Num(404), Str(NotificationNotFound), Undefined, now), now)
    ensures id in old(db.notifications) && !MayDelete(old(db.notifications)[id], c) ==>
      r == Forward(New(Num(403), Str(NotAuthorizedDeleteNotification), Undefined, now), now)
  {
    if id !in db.notifications {
      return Forward(New(Num(404), Str(NotificationNotFound), Undefined, now), now);
    }
    if !MayDelete(db.notifications[id], c) {
      return Forward(New(Num(403), Str(NotAuthorizedDeleteNotification), Undefined, now), now);
    }
    db.notifications := db.notifications - {id};
    r := Reply(200, Null, NotificationDeletedSuccessfully, now);
  }

  // ---- properties ----

  /** The inbox is exactly the user's own notifications and the broadcasts,
      newest first; another user's notification is never in it. */
  lemma InboxExact(ns: map<Id, Notification>, id: Id, n: nat, k: Id)
    requires forall j :: j in ns ==> j < n
    ensures k in Inbox(ns, id, n) <==> k in ns && (ns[k].recipient == Person(id) || ns[k].recipient == Everyone)
    ensures k in ns && ns[k].recipient.Person? && ns[k].recipient.id != id ==> k !in Inbox(ns, id, n)
  {
  }

  /** No user of the schema's roles can delete a broadcast, since the
      exception is for a role `admin` that the schema does not have. */
  lemma BroadcastsUndeletable(n: Notification, c: Caller)
    requires n.recipient == Everyone && c.role in Users.Roles
    ensures !MayDelete(n, c)
  {
  }

  /** The recipient may delete its own notification whatever its role. */
  lemma RecipientMayDelete(n: Notification, c: Caller)
    requires n.recipient == Person(c.id)
    ensures MayDelete(n, c)
  {
  }
}
