/**
 * What the app sends to and reads from the realtime database, as plain
 * values. Every write the screens issue is recorded as a `Request`; the
 * store itself, its listeners and its callbacks are outside the model, and a
 * callback is modelled by calling the screen method that handles it.
 */
module Remote {
  import opened Wrappers
  import opened Messages

  /** The family record written when a family is created (`families/{id}`). */
  datatype FamilyRecord = FamilyRecord(
    name: string,
    createdAt: int,
    parentConnected: bool,
    childConnected: bool,
    status: string,
    lastActivity: int)

  /** The fields of a family snapshot, each absent or holding a value of its type. */
  datatype FamilySnapshot = FamilySnapshot(
    name: Option<string>,
    status: Option<string>,
    parentConnected: Option<bool>,
    childConnected: Option<bool>,
    lastActivity: Option<int>)

  /** The snapshot a reader sees of a record this app wrote. */
  function Snapshot(r: FamilyRecord): (s: FamilySnapshot)
    ensures s.name == Some(r.name) && s.status == Some(r.status)
    ensures s.parentConnected == Some(r.parentConnected) && s.childConnected == Some(r.childConnected)
    ensures s.lastActivity == Some(r.lastActivity)
  {
    FamilySnapshot(Some(r.name), Some(r.status), Some(r.parentConnected), Some(r.childConnected), Some(r.lastActivity))
  }

  /** Which connection flag a device sets for itself. */
  datatype ConnectionKey = ParentConnected | ChildConnected

  /** One request issued to the database or to the notification channel. */
  datatype Request =
    | SetMessage(messageId: string, message: Message)        // messages/{id} := message
    | RemoveMessage(messageId: string)                        // messages/{id} removed
    | RemoveAllMessages(familyId: string)                     // families/{id}/messages removed
    | SetMessageCompleted(messageId: string, value: bool)     // messages/{id}/isCompleted := value
    | NewTaskNotification(text: string, icon: string)         // push notification to the child
    | SetFamily(familyId: string, record: FamilyRecord)       // families/{id} := record
    | MarkChildJoined(familyId: string, lastActivity: int)    // childConnected := true, lastActivity
    | SetLastActivity(familyId: string, time: int)            // families/{id}/lastActivity := time
    | SetConnected(familyId: string, key: ConnectionKey)      // families/{id}/{key} := true
}
