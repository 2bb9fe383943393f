/** The order store of the customer-support exercise: one `orders` table keyed by
    `order_id`, with the columns `username`, `item`, `quantity` and `status`, and
    the four operations that create it, insert into it, read from it and cancel a
    row of it. The SQL statements are modelled by what they do to a map from the
    primary key to the rest of the row. */
module Orders {
  import opened Text

  type OrderId = string

  /** One row of `orders`, without its primary key. */
  datatype Order = Order(username: string, item: string, quantity: int, status: string)

  /** The table: the primary key `order_id` maps to the rest of its row, so there
      is at most one row per identifier. */
  type Table = map<OrderId, Order>

  datatype Option<T> = None | Some(value: T)

  /** The exceptions the `sqlite3` driver raises out of an `INSERT`. */
  datatype DbError =
    | IntegrityError  // the primary key is already taken
    | OverflowError   // the Python int does not fit SQLite's 64-bit INTEGER

  /** A call that either returns or raises. */
  datatype Outcome<T> = Returned(value: T) | Raised(error: DbError)

  const CreatedStatus: string := "Utworzone"
  const CancelledStatus: string := "Anulowane"

  /** `str(uuid.uuid4())` is the 36-character canonical text of a UUID; the
      identifier is its first 8 characters. */
  const UuidTextLength: nat := 36
  const IdLength: nat := 8

  /** The range of SQLite's INTEGER storage class. */
  const MinSqliteInteger: int := -0x8000_0000_0000_0000
  const MaxSqliteInteger: int := 0x7FFF_FFFF_FFFF_FFFF

  predicate FitsSqliteInteger(z: int)
  {
    MinSqliteInteger <= z <= MaxSqliteInteger
  }

  // ---------------------------------------------------------------------------
  // The SQL statements, on the table as a value
  // ---------------------------------------------------------------------------

  /** The row `orderId` exists and belongs to `username`. */
  predicate Owns(t: Table, orderId: OrderId, username: string)
  {
    orderId in t && t[orderId].username == username
  }

  /** The keys of the rows whose identifier and user name both match. Since the
      identifier is the primary key, that is the one owned row or none. */
  function MatchingKeys(t: Table, orderId: OrderId, username: string): (keys: set<OrderId>)
    ensures keys == if Owns(t, orderId, username) then {orderId} else {}
    ensures |keys| == if Owns(t, orderId, username) then 1 else 0
  {
    set k | k in t && k == orderId && t[k].username == username
  }

  /** The lookup of a status by identifier and user name, taking the first
      matching row: the status of the matching row, if there is one. */
  function SelectStatus(t: Table, orderId: OrderId, username: string): (r: Option<string>)
    ensures r.Some? <==> Owns(t, orderId, username)
    ensures r.Some? ==> r.value == t[orderId].status
  {
    var keys := MatchingKeys(t, orderId, username);
    if keys == {} then None else Some(t[orderId].status)
  }

  /** Adding a row: binding a quantity outside SQLite's integer range raises
      before the statement runs, and a taken primary key violates its
      constraint. Otherwise exactly one row is added. */
  function Insert(t: Table, orderId: OrderId, row: Order): (r: Outcome<Table>)
    ensures !FitsSqliteInteger(row.quantity) ==> r == Raised(OverflowError)
    ensures FitsSqliteInteger(row.quantity) && orderId in t ==> r == Raised(IntegrityError)
    ensures r.Returned? <==> FitsSqliteInteger(row.quantity) && orderId !in t
    ensures r.Returned? ==>
              && r.value.Keys == t.Keys + {orderId}
              && |r.value| == |t| + 1
              && r.value[orderId] == row
              && (forall k :: k in t ==> r.value[k] == t[k])
  {
    if !FitsSqliteInteger(row.quantity) then Raised(OverflowError)
    else if orderId in t then Raised(IntegrityError)
    else Returned(t[orderId := row])
  }

  /** Setting the status of the rows whose identifier and user name match: the
      owned row gets the new status, its other columns and every other row stay
      as they were. */
  function UpdateStatus(t: Table, orderId: OrderId, username: string, status: string): (r: Table)
    ensures r.Keys == t.Keys
    ensures forall k :: k in t && k != orderId ==> r[k] == t[k]
    ensures forall k :: k in t ==>
              r[k].username == t[k].username && r[k].item == t[k].item && r[k].quantity == t[k].quantity
    ensures Owns(t, orderId, username) ==> r == t[orderId := t[orderId].(status := status)]
    ensures !Owns(t, orderId, username) ==> r == t
  {
    map k | k in t :: if k == orderId && t[k].username == username then t[k].(status := status) else t[k]
  }

  /** The rows this program writes: 8-character identifiers and one of the two
      statuses it ever stores. */
  ghost predicate WellFormed(t: Table)
  {
    forall k :: k in t ==> |k| == IdLength && (t[k].status == CreatedStatus || t[k].status == CancelledStatus)
  }

  // ---------------------------------------------------------------------------
  // The returned messages
  // ---------------------------------------------------------------------------

  const NotFoundPrefix: string := "Nie znaleziono zamówienia "

  /** The message reports that no order matched. */
  predicate IsNotFound(m: string)
  {
    StartsWith(m, NotFoundPrefix)
  }

  /** Helper: a message that does not start with 'N' is not a not-found message. */
  lemma NotFoundStartsWithN(m: string)
    requires |m| > 0 && m[0] != 'N'
    ensures !IsNotFound(m)
  {
    assert NotFoundPrefix[0] == 'N';
  }

  /** The reply to a successful creation: it names the new order, the item and
      the quantity. */
  function CreatedMessage(orderId: OrderId, item: string, quantity: int): (m: string)
    ensures Contains(m, orderId) && Contains(m, item) && Contains(m, IntToString(quantity))
    ensures !IsNotFound(m)
  {
    var withId := "Zamówienie " + orderId;
    var withItem := withId + " zostało utworzone dla " + item;
    var beforeQuantity := withItem + " w ilości ";
    var m := beforeQuantity + IntToString(quantity);
    ContainsSuffix("Zamówienie ", orderId);
    ContainsExtend(withId, orderId, " zostało utworzone dla " + item);
    assert withItem == withId + (" zostało utworzone dla " + item);
    ContainsExtend(withItem, orderId, " w ilości ");
    ContainsExtend(beforeQuantity, orderId, IntToString(quantity));
    ContainsSuffix(withId + " zostało utworzone dla ", item);
    ContainsExtend(withItem, item, " w ilości ");
    ContainsExtend(beforeQuantity, item, IntToString(quantity));
    ContainsSuffix(beforeQuantity, IntToString(quantity));
    assert m[0] == 'Z';
    NotFoundStartsWithN(m);
    m
  }

  /** The reply to a status query for an owned order: it names the order and its
      status. */
  function StatusMessage(orderId: OrderId, status: string): (m: string)
    ensures Contains(m, orderId) && Contains(m, status)
    ensures !IsNotFound(m)
  {
    var head := "Status zamówienia ";
    var middle := " to: ";
    var m := head + orderId + middle + status;
    assert m == head + orderId + (middle + status);
    ContainsMiddle(head, orderId, middle + status);
    ContainsSuffix(head + orderId + middle, status);
    assert m[0] == 'S';
    NotFoundStartsWithN(m);
    m
  }

  /** The reply when no row matches the identifier and user name: it names both,
      after a fixed prefix. */
  function NotFoundMessage(orderId: OrderId, username: string): (m: string)
    ensures Contains(m, orderId) && Contains(m, username)
    ensures IsNotFound(m)
  {
    var middle := " dla użytkownika ";
    var m := NotFoundPrefix + orderId + middle + username;
    assert m == NotFoundPrefix + orderId + (middle + username);
    ContainsMiddle(NotFoundPrefix, orderId, middle + username);
    ContainsSuffix(NotFoundPrefix + orderId + middle, username);
    assert m[..|NotFoundPrefix|] == NotFoundPrefix;
    m
  }

  /** The reply to a successful cancellation: it names the order and the reason
      given. */
  function CancelledMessage(orderId: OrderId, reason: string): (m: string)
    ensures Contains(m, orderId) && Contains(m, reason)
    ensures !IsNotFound(m)
    ensures forall id, status :: m != StatusMessage(id, status)
  {
    var head := "Zamówienie ";
    var middle := " zostało anulowane z powodu: ";
    var m := head + orderId + middle + reason;
    assert m == head + orderId + (middle + reason);
    ContainsMiddle(head, orderId, middle + reason);
    ContainsSuffix(head + orderId + middle, reason);
    assert m[0] == 'Z';
    NotFoundStartsWithN(m);
    m
  }

  // ---------------------------------------------------------------------------
  // Properties of the table operations
  // ---------------------------------------------------------------------------

  /** A status lookup right after a successful insert of a fresh order finds it
      under its owner with status "Utworzone", and finds nothing under any other
      user name. */
  lemma GetStatusAfterCreate(t: Table, orderId: OrderId, username: string, other: string,
                             item: string, quantity: int)
    requires Insert(t, orderId, Order(username, item, quantity, CreatedStatus)).Returned?
    ensures var t' := Insert(t, orderId, Order(username, item, quantity, CreatedStatus)).value;
            && SelectStatus(t', orderId, username) == Some(CreatedStatus)
            && (other != username ==> SelectStatus(t', orderId, other) == None)
  {
  }

  /** After cancelling, the owner's lookup reports "Anulowane"; a cancel that
      matched nothing leaves the lookup as it was. */
  lemma GetStatusAfterCancel(t: Table, orderId: OrderId, username: string)
    ensures SelectStatus(UpdateStatus(t, orderId, username, CancelledStatus), orderId, username)
         == if Owns(t, orderId, username) then Some(CancelledStatus) else None
  {
  }

  /** Cancelling twice is cancelling once, and the second cancel still matches
      the row, so it reports success again. */
  lemma CancelTwice(t: Table, orderId: OrderId, username: string)
    ensures var once := UpdateStatus(t, orderId, username, CancelledStatus);
            && UpdateStatus(once, orderId, username, CancelledStatus) == once
            && |MatchingKeys(once, orderId, username)| == |MatchingKeys(t, orderId, username)|
  {
    var once := UpdateStatus(t, orderId, username, CancelledStatus);
    var twice := UpdateStatus(once, orderId, username, CancelledStatus);
    assert forall k :: k in once ==> twice[k] == once[k];
  }

  /** Inserting a fresh order and cancelling keep the rows well formed: every
      identifier has 8 characters and every status is one of the two written. */
  lemma WellFormedPreserved(t: Table, orderId: OrderId, username: string, item: string,
                            quantity: int)
    requires WellFormed(t) && |orderId| == IdLength
    ensures var ins := Insert(t, orderId, Order(username, item, quantity, CreatedStatus));
            ins.Returned? ==> WellFormed(ins.value)
    ensures WellFormed(UpdateStatus(t, orderId, username, CancelledStatus))
  {
  }

  // ---------------------------------------------------------------------------
  // The database file as an object
  // ---------------------------------------------------------------------------

  /** `orders.db`: whether the `orders` table has been created, and its rows. */
  class OrderDb {
    var tableExists: bool
    var rows: Table

    /** A table that was never created has no rows. */
    ghost predicate Valid()
      reads this
    {
      !tableExists ==> rows == map[]
    }

    /** A database file in which `initialize_db` has not run yet. */
    constructor ()
      ensures Valid() && !tableExists && rows == map[]
    {
      tableExists := false;
      rows := map[];
    }

    /** A database file whose `orders` table already holds `existing`. */
    constructor Open(existing: Table)
      ensures Valid() && tableExists && rows == existing
    {
      tableExists := true;
      rows := existing;
    }

    /** `initialize_db`: creates the table when it is missing. Idempotent: on an
        existing table no row changes. */
    method InitializeDb()
      requires Valid()
      modifies this
      ensures Valid() && tableExists && rows == old(rows)
    {
      if !tableExists {
        tableExists := true;
        rows := map[];
      }
    }

    /** `create_order`: `uuid` is the text of the freshly drawn UUID. On success
        exactly one row is added, under the 8-character prefix of `uuid`, with the
        caller's user name, item and quantity and status "Utworzone". */
    method CreateOrder(username: string, item: string, quantity: int, uuid: string)
      returns (r: Outcome<string>)
      requires Valid() && |uuid| == UuidTextLength
      modifies this
      ensures Valid() && tableExists
      ensures var orderId := uuid[..IdLength];
              && |orderId| == IdLength
              && (r.Returned? <==> FitsSqliteInteger(quantity) && orderId !in old(rows))
              && (r.Returned? ==>
                    && rows == old(rows)[orderId := Order(username, item, quantity, CreatedStatus)]
                    && r.value == CreatedMessage(orderId, item, quantity))
              && (!FitsSqliteInteger(quantity) ==> r == Raised(OverflowError))
              && (FitsSqliteInteger(quantity) && orderId in old(rows) ==> r == Raised(IntegrityError))
              && (r.Raised? ==> rows == old(rows))
      ensures WellFormed(old(rows)) ==> WellFormed(rows)
    {
      InitializeDb();
      var orderId := uuid[..IdLength];
      var status := CreatedStatus;
      var inserted := Insert(rows, orderId, Order(username, item, quantity, status));
      match inserted
      case Raised(e) =>
        r := Raised(e);
      case Returned(t) =>
        rows := t;
        r := Returned(CreatedMessage(orderId, item, quantity));
    }

    /** `get_order_status`: the status of the order with this identifier and
        owner, or the not-found message. No row changes. */
    method GetOrderStatus(orderId: OrderId, username: string) returns (m: string)
      requires Valid()
      modifies this
      ensures Valid() && tableExists && rows == old(rows)
      ensures Owns(rows, orderId, username) ==> m == StatusMessage(orderId, rows[orderId].status)
      ensures !Owns(rows, orderId, username) ==> m == NotFoundMessage(orderId, username)
    {
      InitializeDb();
      var row := SelectStatus(rows, orderId, username);
      match row
      case Some(status) =>
        m := StatusMessage(orderId, status);
      case None =>
        m := NotFoundMessage(orderId, username);
    }

    /** `cancel_order`: the matching row, if any, gets status "Anulowane" and
        nothing else changes; `reason` is only echoed in the message. */
    method CancelOrder(orderId: OrderId, username: string, reason: string) returns (m: string)
      requires Valid()
      modifies this
      ensures Valid() && tableExists
      ensures rows == UpdateStatus(old(rows), orderId, username, CancelledStatus)
      ensures Owns(old(rows), orderId, username) ==>
                && rows == old(rows)[orderId := old(rows)[orderId].(status := CancelledStatus)]
                && m == CancelledMessage(orderId, reason)
      ensures !Owns(old(rows), orderId, username) ==>
                rows == old(rows) && m == NotFoundMessage(orderId, username)
      ensures WellFormed(old(rows)) ==> WellFormed(rows)
    {
      InitializeDb();
      var matched := MatchingKeys(rows, orderId, username);
      rows := UpdateStatus(rows, orderId, username, CancelledStatus);
      var rowCount := |matched|;
      if rowCount == 0 {
        m := NotFoundMessage(orderId, username);
      } else {
        m := CancelledMessage(orderId, reason);
      }
    }
  }

  /** A client that checks the contracts compose across create, status and
      cancel: create an order, read its status, cancel it, read it again, cancel
      it again, and ask for an order nobody has. */
  method Walkthrough()
  {
    var db := new OrderDb();
    var uuid := "0f3c9a2e-1b7d-4c55-9e8a-2d6f1a3b4c5d";
    var id := "0f3c9a2e";
    assert uuid[..IdLength] == id;
    var created := db.CreateOrder("jan", "welder-bot", 2, uuid);
    assert created == Returned(CreatedMessage(id, "welder-bot", 2));
    var status := db.GetOrderStatus(id, "jan");
    assert status == StatusMessage(id, CreatedStatus);
    var stranger := db.GetOrderStatus(id, "ola");
    assert IsNotFound(stranger);
    var cancelled := db.CancelOrder(id, "jan", "changed mind");
    assert cancelled == CancelledMessage(id, "changed mind");
    status := db.GetOrderStatus(id, "jan");
    assert status == StatusMessage(id, CancelledStatus);
    cancelled := db.CancelOrder(id, "jan", "again");
    assert !IsNotFound(cancelled) && db.rows[id].status == CancelledStatus;
    var missing := db.GetOrderStatus("doesnotexist", "nobody");
    assert missing == NotFoundMessage("doesnotexist", "nobody");
  }
}
