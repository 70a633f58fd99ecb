/**
 * Handle names (Oradpi_NewHandleName) and the routing decision that
 * Oradpi_SetErrorFromODPI takes from a handle's name prefix.
 */
module Naming {
  import opened Tcl

  const ConnPrefix: string := "oraL"
  const StmtPrefix: string := "oraS"
  const LobPrefix: string := "oraB"

  predicate NoDigits(p: string)
  {
    forall k :: 0 <= k < |p| ==> !IsDigit(p[k])
  }

  /** The process-wide counter behind every handle name (a static int guarded by gHandleMutex). */
  class Namer {
    var counter: nat

    constructor ()
      ensures counter == 0
    {
      counter := 0;
    }

    /** Oradpi_NewHandleName: bump the counter, then append its decimal value to the prefix. */
    method NewHandleName(prefix: string) returns (name: string)
      modifies this
      ensures counter == old(counter) + 1
      ensures name == prefix + Digits(counter)
      ensures HandleNumber(name) == counter || |prefix| != 4
    {
      counter := counter + 1;
      name := prefix + Digits(counter);
      if |prefix| == 4 {
        HandleNumberOf(prefix, counter);
      }
    }
  }

  /** Names drawn from different counter values differ, even under different digit-free prefixes. */
  lemma {:induction false} NamesDistinct(p: string, q: string, a: nat, b: nat)
    requires NoDigits(p) && NoDigits(q) && a != b
    ensures p + Digits(a) != q + Digits(b)
  {
    var s, t := p + Digits(a), q + Digits(b);
    if |p| == |q| {
      assert s[|p|..] == Digits(a);
      assert t[|q|..] == Digits(b);
      DigitsInjective(a, b);
    } else if |p| < |q| {
      assert IsDigit(s[|p|]) by { assert s[|p|] == Digits(a)[0]; }
      assert !IsDigit(t[|p|]) by { assert t[|p|] == q[|p|]; }
    } else {
      assert IsDigit(t[|q|]) by { assert t[|q|] == Digits(b)[0]; }
      assert !IsDigit(s[|q|]) by { assert s[|q|] == p[|q|]; }
    }
  }

  /** The counter value a four-character-prefixed handle name was made from (0 for any other string). */
  function HandleNumber(name: string): nat
  {
    if |name| > 4 && AllDigits(name[4..]) then DigitsValue(name[4..]) else 0
  }

  lemma HandleNumberOf(prefix: string, k: nat)
    requires |prefix| == 4
    ensures HandleNumber(prefix + Digits(k)) == k
  {
    assert (prefix + Digits(k))[4..] == Digits(k);
    DigitsRoundTrip(k);
  }

  /** Where a recoverable driver error on a handle is reported. */
  datatype Route = ToSelf | ToOwner | Nowhere

  /** The strncmp(name, "oraL"/"oraS", 4) decision of Oradpi_SetErrorFromODPI. */
  function RouteOf(name: string): Route
  {
    if |name| >= 4 && name[..4] == ConnPrefix then ToSelf
    else if |name| >= 4 && name[..4] == StmtPrefix then ToOwner
    else Nowhere
  }

  /**
   * Generated names route as their kind: a connection's errors go to itself,
   * a statement's to its owner connection, a LOB's nowhere.
   */
  lemma RouteOfGenerated(k: nat)
    ensures RouteOf(ConnPrefix + Digits(k)) == ToSelf
    ensures RouteOf(StmtPrefix + Digits(k)) == ToOwner
    ensures RouteOf(LobPrefix + Digits(k)) == Nowhere
  {
    assert (ConnPrefix + Digits(k))[..4] == ConnPrefix;
    assert (StmtPrefix + Digits(k))[..4] == StmtPrefix;
    assert (LobPrefix + Digits(k))[..4] == LobPrefix;
  }
}
