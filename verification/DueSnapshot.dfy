/**
 * The tables that the enumeration of due notifications reads, on one snapshot. Tables are sequences in
 * the order of the index that serves the query; ids are the numbers behind the UUIDs.
 */
module DueSnapshot {

  datatype User = User(id: nat, createdAt: int)

  datatype StoredReceipt = StoredReceipt(id: nat, userId: nat, itemName: string, expiresOn: int, createdAt: int)

  /** `receipts` ascends by id, `users` by registration time and then id. */
  datatype Snapshot = Snapshot(users: seq<User>, receipts: seq<StoredReceipt>)

  predicate UserBefore(a: User, b: User) {
    a.createdAt < b.createdAt || (a.createdAt == b.createdAt && a.id < b.id)
  }

  ghost predicate Indexed(db: Snapshot) {
    && (forall i, j :: 0 <= i < j < |db.receipts| ==> db.receipts[i].id < db.receipts[j].id)
    && (forall i, j :: 0 <= i < j < |db.users| ==>
          UserBefore(db.users[i], db.users[j]) && db.users[i].id != db.users[j].id)
  }
}
