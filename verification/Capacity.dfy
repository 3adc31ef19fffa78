/**
 * The capacity account of one matrix entry. Within a group of flows a crossing either joins the
 * packet stream of the group, and 32 joined crossings fill one unit, or takes a unit of its own;
 * at the end of the group a started packet stream is charged as one unit.
 */
module Capacity {

  const MAX_CIRCUIT: nat := 1
  const MAX_PACKET: nat := 32

  /** Crossings of one entry by one group: those that joined the packet stream and those that did not. */
  datatype Entry = Entry(joined: nat, direct: nat)

  /** The packet count after `n` joined crossings, starting from `start`. */
  function Packets(start: nat, n: nat): (p: nat)
  {
    if n == 0 then start
    else if Packets(start, n - 1) + 1 >= MAX_PACKET then 0 else Packets(start, n - 1) + 1
  }

  /** How many units filled up meanwhile. */
  function Filled(start: nat, n: nat): (u: nat)
  {
    if n == 0 then 0
    else Filled(start, n - 1) + if Packets(start, n - 1) + 1 >= MAX_PACKET then 1 else 0
  }

  /** The units a group is charged for, with `start` packets counted before it. */
  function Charge(start: nat, e: Entry): (u: nat)
  {
    e.direct + Filled(start, e.joined) + if Packets(start, e.joined) > 0 then 1 else 0
  }

  /** Every joined crossing and every packet counted before is paid for, 32 to a unit. */
  lemma {:induction false} UnitsCover(start: nat, n: nat)
    ensures n >= 1 || start > 0 ==> Filled(start, n) >= 1 || Packets(start, n) > 0
    ensures Filled(start, n) == 0 ==> Packets(start, n) == start + n && (n > 0 ==> start + n < MAX_PACKET)
    ensures Filled(start, n) == 1 && Packets(start, n) == 0 ==>
              n >= 1 && (start + n == MAX_PACKET || (start >= MAX_PACKET && n == 1))
    ensures Filled(start, n) >= 1 ==> Packets(start, n) < MAX_PACKET
  {
    if n > 0 {
      UnitsCover(start, n - 1);
    }
  }

  /** A group that crosses an entry, or finds packets counted there, is charged. */
  lemma CrossingCharged(start: nat, e: Entry)
    requires e.joined + e.direct >= 1 || start > 0
    ensures Charge(start, e) >= 1
  {
    UnitsCover(start, e.joined);
  }

  /** A charge of at most one unit bounds the crossings. */
  lemma UnitCharge(start: nat, e: Entry)
    requires Charge(start, e) <= 1
    ensures e.joined + e.direct <= MAX_PACKET
    ensures e.direct >= 1 ==> e.direct == 1 && e.joined == 0 && start == 0
    ensures e.joined >= 1 ==> start + e.joined <= if start >= MAX_PACKET then start + 1 else MAX_PACKET
  {
    UnitsCover(start, e.joined);
  }

  /** One group's account of one entry: the packets counted before it, and its crossings. */
  datatype Account = Account(start: nat, entry: Entry)

  /** The units charged by all groups together. */
  function Charged(accounts: seq<Account>): (u: nat)
  {
    if accounts == [] then 0
    else Charged(accounts[..|accounts| - 1]) + Charge(accounts[|accounts| - 1].start, accounts[|accounts| - 1].entry)
  }

  lemma {:induction false} ChargedTwo(accounts: seq<Account>, i: nat, j: nat)
    requires i < j < |accounts|
    ensures Charged(accounts) >= Charge(accounts[i].start, accounts[i].entry)
      + Charge(accounts[j].start, accounts[j].entry)
    decreases |accounts|
  {
    var n := |accounts| - 1;
    if j < n {
      ChargedTwo(accounts[..n], i, j);
    } else {
      ChargedOne(accounts[..n], i);
    }
  }

  lemma {:induction false} ChargedOne(accounts: seq<Account>, i: nat)
    requires i < |accounts|
    ensures Charged(accounts) >= Charge(accounts[i].start, accounts[i].entry)
    decreases |accounts|
  {
    var n := |accounts| - 1;
    if i < n {
      ChargedOne(accounts[..n], i);
    }
  }

  /** Within capacity, only one group crosses an entry, and no group crosses it after another found packets there. */
  lemma OneGroup(accounts: seq<Account>, i: nat, j: nat)
    requires Charged(accounts) <= MAX_CIRCUIT && i < |accounts| && j < |accounts|
    requires accounts[i].entry.joined + accounts[i].entry.direct >= 1
    requires accounts[j].entry.joined + accounts[j].entry.direct >= 1 || accounts[j].start > 0
    ensures i == j
  {
    CrossingCharged(accounts[i].start, accounts[i].entry);
    CrossingCharged(accounts[j].start, accounts[j].entry);
    if i < j {
      ChargedTwo(accounts, i, j);
    } else if j < i {
      ChargedTwo(accounts, j, i);
    }
  }
}
