/** The per-address traffic ledger of the pub/sub centre (src/pubsub/pub_sub.cc). */
module Ledger {
  import opened Basics

  type Addr = string
  type Accounts = map<Addr, nat>

  const SIZE_MAX := LIMIT_64 - 1
  const MAX_TRAFFIC := 0x7fff_ffff_ffff_ffff

  /** `account` adds the first charge of an unknown address twice. */
  function Accounted(t: Accounts, addr: Addr, n: nat): Accounts {
    t[addr := ((if addr in t then t[addr] else n) + n) % LIMIT_64]
  }

  /** An unknown address reads as `size_t(-1)`. */
  function Traffic(t: Accounts, addr: Addr): nat {
    if addr in t then t[addr] else SIZE_MAX
  }

  predicate Limited(t: Accounts, addr: Addr) { Traffic(t, addr) > MAX_TRAFFIC }

  /** A charge is booked exactly when the address is known and the sum does not wrap, or
      when nothing is charged. */
  lemma BookedExactlyIff(t: Accounts, addr: Addr, n: nat)
    requires n < LIMIT_64
    ensures Accounted(t, addr, n)[addr] == (if addr in t then t[addr] else 0) + n <==>
      if addr in t then t[addr] + n < LIMIT_64 else n == 0
  {
  }

  lemma NothingCharged(t: Accounts, addr: Addr)
    requires addr in t ==> t[addr] < LIMIT_64
    ensures Accounted(t, addr, 0) == if addr in t then t else t[addr := 0]
  {
    if addr in t {
      assert t[addr := t[addr]] == t;
    }
  }

  /** Every known address has been charged what was delivered for it, nothing was delivered
      for an unknown one, and no entry is more than one charge above the limit. */
  ghost predicate Balanced(t: Accounts, delivered: Addr -> nat, charge: nat) {
    && (forall a :: a in t ==> t[a] == delivered(a) <= MAX_TRAFFIC + charge)
    && (forall a :: a !in t ==> delivered(a) == 0)
  }

  /** Registering an address books 0, known or not. */
  lemma RegisterBalanced(t: Accounts, delivered: Addr -> nat, charge: nat, addr: Addr)
    requires Balanced(t, delivered, charge) && MAX_TRAFFIC + charge < LIMIT_64
    ensures Balanced(Accounted(t, addr, 0), delivered, charge) && addr in Accounted(t, addr, 0)
  {
  }

  /** A charge that passed the limit check is booked once, for a known address. */
  lemma ChargeBalanced(t: Accounts, was: Addr -> nat, now: Addr -> nat, charge: nat, addr: Addr, n: nat)
    requires Balanced(t, was, charge) && MAX_TRAFFIC + charge < LIMIT_64
    requires !Limited(t, addr) && n <= charge
    requires forall a :: now(a) == was(a) + if a == addr then n else 0
    ensures addr in t
    ensures Balanced(Accounted(t, addr, n), now, charge)
  {
  }

  class PubSubCenter {
    var traffic: Accounts

    constructor ()
      ensures traffic == map[]
    {
      traffic := map[];
    }

    method Account(addr: Addr, n: nat)
      modifies this
      ensures traffic == Accounted(old(traffic), addr, n)
      ensures addr in traffic && traffic - {addr} == old(traffic) - {addr}
      ensures traffic[addr] == (if addr in old(traffic) then old(traffic)[addr] + n else n + n) % LIMIT_64
    {
      if addr !in traffic {
        traffic := traffic[addr := n];
      }
      traffic := traffic[addr := (traffic[addr] + n) % LIMIT_64];
    }

    method IsLimited(addr: Addr) returns (limited: bool)
      ensures limited == Limited(traffic, addr)
      ensures limited <==> addr !in traffic || traffic[addr] > 0x7fff_ffff_ffff_ffff
    {
      var used := if addr in traffic then traffic[addr] else SIZE_MAX;
      limited := used > MAX_TRAFFIC;
    }
  }
}
