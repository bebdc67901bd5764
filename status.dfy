/**
 * Document statuses and the five workflow phases of the credit-note and
 * delivery-order pages.
 *
 * A status is a string in the pages; the twelve offered ones get their own
 * constructors and any other string (a legacy value read from storage, or
 * the empty status the Delivered backtrack can write) is `Other(name)`.
 * `Canonical` says the representation is the intended one (`Other` only for
 * strings outside the dropdown); `FromName` yields only canonical statuses,
 * and on those two statuses are equal exactly when their names are equal
 * strings.
 */
module Statuses {
  import opened Text

  datatype Status =
    | Billed
    | PreparingDelivery
    | DeliveryInProgress
    | Delivered
    | HoldOffice
    | HoldWarehouse
    | HoldSalesman
    | ChopSignOffice
    | ChopSignWarehouse
    | ChopSignSalesman
    | Transfer
    | Completed
    | Other(name: string)

  /** The status dropdown's options, in order. */
  const StatusOptions: seq<string> := [
    "Billed", "Preparing Delivery", "Delivery In Progress", "Delivered",
    "Hold - Office", "Hold - Warehouse", "Hold - Salesman",
    "Chop & Sign - Office", "Chop & Sign - Warehouse", "Chop & Sign - Salesman",
    "Transfer", "Completed"
  ]

  /** A status is canonical when `Other` is used only for names outside the dropdown. */
  predicate Canonical(s: Status)
  {
    s.Other? ==> s.name !in StatusOptions
  }

  /** The string a status is stored and shown as. */
  function Name(s: Status): (n: string)
    ensures !s.Other? ==> n in StatusOptions
    ensures s.Other? ==> n == s.name
  {
    match s
    case Billed => "Billed"
    case PreparingDelivery => "Preparing Delivery"
    case DeliveryInProgress => "Delivery In Progress"
    case Delivered => "Delivered"
    case HoldOffice => "Hold - Office"
    case HoldWarehouse => "Hold - Warehouse"
    case HoldSalesman => "Hold - Salesman"
    case ChopSignOffice => "Chop & Sign - Office"
    case ChopSignWarehouse => "Chop & Sign - Warehouse"
    case ChopSignSalesman => "Chop & Sign - Salesman"
    case Transfer => "Transfer"
    case Completed => "Completed"
    case Other(n) => n
  }

  /** The status a stored or selected string denotes. */
  function FromName(n: string): (s: Status)
    ensures Name(s) == n && Canonical(s)
    ensures s.Other? <==> n !in StatusOptions
  {
    if n == "Billed" then Billed
    else if n == "Preparing Delivery" then PreparingDelivery
    else if n == "Delivery In Progress" then DeliveryInProgress
    else if n == "Delivered" then Delivered
    else if n == "Hold - Office" then HoldOffice
    else if n == "Hold - Warehouse" then HoldWarehouse
    else if n == "Hold - Salesman" then HoldSalesman
    else if n == "Chop & Sign - Office" then ChopSignOffice
    else if n == "Chop & Sign - Warehouse" then ChopSignWarehouse
    else if n == "Chop & Sign - Salesman" then ChopSignSalesman
    else if n == "Transfer" then Transfer
    else if n == "Completed" then Completed
    else Other(n)
  }

  /** Names identify statuses: `Name` is injective on canonical statuses. */
  lemma NameInjective(s: Status, t: Status)
    requires Canonical(s) && Canonical(t)
    ensures Name(s) == Name(t) <==> s == t
  {
    if Name(s) == Name(t) {
      assert s == FromName(Name(s)) by { FromNameOfName(s); }
      assert t == FromName(Name(t)) by { FromNameOfName(t); }
    }
  }

  lemma FromNameOfName(s: Status)
    requires Canonical(s)
    ensures FromName(Name(s)) == s
  {
  }

  const Phase1Names: seq<string> := ["Billed"]
  const Phase2Names: seq<string> := [
    "Preparing Delivery", "Hold - Office", "Hold - Warehouse", "Hold - Salesman",
    "Chop & Sign - Office", "Chop & Sign - Warehouse", "Chop & Sign - Salesman",
    "Transfer"
  ]
  const Phase3Names: seq<string> := ["Delivery In Progress"]
  const Phase4Names: seq<string> := ["Delivered"]
  const Phase5Names: seq<string> := ["Completed"]

  /** `getPhase`: the phase of a status string; unknown strings fall back to phase 1. */
  function PhaseOfName(n: string): (p: int)
    ensures 1 <= p <= 5
    ensures n !in StatusOptions ==> p == 1
  {
    if n in Phase1Names then 1
    else if n in Phase2Names then 2
    else if n in Phase3Names then 3
    else if n in Phase4Names then 4
    else if n in Phase5Names then 5
    else 1
  }

  /** The phase of a status, per constructor. */
  function Phase(s: Status): (p: int)
    ensures 1 <= p <= 5
  {
    match s
    case Billed => 1
    case PreparingDelivery | HoldOffice | HoldWarehouse | HoldSalesman => 2
    case ChopSignOffice | ChopSignWarehouse | ChopSignSalesman | Transfer => 2
    case DeliveryInProgress => 3
    case Delivered => 4
    case Completed => 5
    case Other(_) => 1
  }

  /** `getPhase` on the status's name agrees with the per-constructor phase. */
  lemma PhaseAgreesWithNames(s: Status)
    requires Canonical(s)
    ensures Phase(s) == PhaseOfName(Name(s))
  {
  }

  /** The phase table, read off per status. */
  lemma PhaseTable(s: Status)
    ensures Phase(s) == 1 <==> s == Billed || s.Other?
    ensures Phase(s) == 2 <==>
              s in {PreparingDelivery, HoldOffice, HoldWarehouse, HoldSalesman,
                    ChopSignOffice, ChopSignWarehouse, ChopSignSalesman, Transfer}
    ensures Phase(s) == 3 <==> s == DeliveryInProgress
    ensures Phase(s) == 4 <==> s == Delivered
    ensures Phase(s) == 5 <==> s == Completed
  {
  }

  /** `STATUS_REQUIRES_SALESMAN` */
  predicate RequiresSalesman(s: Status)
    ensures RequiresSalesman(s) ==> Phase(s) == 2 && !RequiresClerk(s)
  {
    s == HoldSalesman || s == ChopSignSalesman
  }

  /** `STATUS_REQUIRES_CLERK` */
  predicate RequiresClerk(s: Status)
    ensures RequiresClerk(s) ==> Phase(s) == 2
  {
    s == HoldOffice || s == ChopSignOffice
  }

  /** The name starts with "Hold -" or "Chop & Sign -". */
  predicate IsHoldOrChop(s: Status)
  {
    HasPrefix(Name(s), "Hold -") || HasPrefix(Name(s), "Chop & Sign -")
  }

  /** Among the offered statuses, exactly the six hold and chop-and-sign ones carry the prefix. */
  lemma HoldOrChopTable(s: Status)
    requires !s.Other?
    ensures IsHoldOrChop(s) <==>
              s in {HoldOffice, HoldWarehouse, HoldSalesman, ChopSignOffice, ChopSignWarehouse, ChopSignSalesman}
  {
    var n := Name(s);
    match s
    case Billed =>
      assert n[0] != "Hold -"[0] && n[0] != "Chop & Sign -"[0];
    case PreparingDelivery =>
      assert n[0] != "Hold -"[0] && n[0] != "Chop & Sign -"[0];
    case DeliveryInProgress =>
      assert n[0] != "Hold -"[0] && n[0] != "Chop & Sign -"[0];
    case Delivered =>
      assert n[0] != "Hold -"[0] && n[0] != "Chop & Sign -"[0];
    case Transfer =>
      assert n[0] != "Hold -"[0] && n[0] != "Chop & Sign -"[0];
    case Completed =>
      assert n[0] != "Hold -"[0] && |n| < |"Chop & Sign -"|;
    case HoldOffice =>
      assert n[..6] == "Hold -";
    case HoldWarehouse =>
      assert n[..6] == "Hold -";
    case HoldSalesman =>
      assert n[..6] == "Hold -";
    case ChopSignOffice =>
      assert n[..13] == "Chop & Sign -";
    case ChopSignWarehouse =>
      assert n[..13] == "Chop & Sign -";
    case ChopSignSalesman =>
      assert n[..13] == "Chop & Sign -";
  }
}
