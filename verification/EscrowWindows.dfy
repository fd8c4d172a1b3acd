/** When a dispute may be opened, and when the vendor may take the escrow after its timeout. Both
    count confirmations of the order's funding transactions. */
module EscrowWindows {
  import opened Wrappers
  import opened Hexadecimal

  const UINT32 := 0x1_0000_0000

  datatype Record = Record(txid: string, index: nat, value: int, address: string, spent: bool)

  /** Confirmations by transaction hash; None when the hash or the lookup is bad. */
  type Confirmations = string -> Option<nat>

  datatype Failure = BadTransaction | TimeLocked(txid: string, missing: nat) | BadAddress | NoInputs

  /** The escrow timeout in blocks; the product is a uint32. */
  function TimeoutConfirmations(escrowTimeoutHours: nat, confirmationsPerHour: nat): nat {
    escrowTimeoutHours * confirmationsPerHour % UINT32
  }

  predicate TimedOut(r: Record, timeout: nat, confirms: Confirmations) {
    confirms(TrimPrefix(r.txid)).Some? && confirms(TrimPrefix(r.txid)).value >= timeout
  }

  predicate Young(r: Record, timeout: nat, confirms: Confirmations) {
    confirms(TrimPrefix(r.txid)).Some? && confirms(TrimPrefix(r.txid)).value < timeout
  }

  predicate Spendable(r: Record) {
    !r.spent && r.value > 0
  }

  ghost predicate Disputeable(records: seq<Record>, timeout: nat, confirms: Confirmations) {
    forall r :: r in records ==> Young(r, timeout, confirms)
  }

  function SpendableOf(records: seq<Record>): seq<Record> {
    if records == [] then []
    else SpendableOf(records[..|records| - 1]) + if Spendable(records[|records| - 1]) then [records[|records| - 1]] else []
  }

  ghost predicate Releasable(records: seq<Record>, timeout: nat, confirms: Confirmations, decodes: Record -> bool) {
    && (exists r :: r in records && Spendable(r))
    && forall r :: r in records && Spendable(r) ==> TimedOut(r, timeout, confirms) && decodes(r)
  }

  /** Both windows are set by the contract's timeout and the currency's block rate. */
  datatype Terms = Terms(escrowTimeoutHours: nat, confirmationsPerHour: nat)

  function TimeoutOf(terms: Terms): nat {
    TimeoutConfirmations(terms.escrowTimeoutHours, terms.confirmationsPerHour)
  }

  method VerifyEscrowFundsAreDisputeable(records: seq<Record>, terms: Terms, confirms: Confirmations) returns (ok: bool)
    ensures ok <==> Disputeable(records, TimeoutOf(terms), confirms)
  {
    for n := 0 to |records|
      invariant forall r :: r in records[..n] ==> Young(r, TimeoutOf(terms), confirms)
    {
      assert records[n] in records;
      var actual := confirms(TrimPrefix(records[n].txid));
      if actual.None? || actual.value >= TimeoutOf(terms) {
        return false;
      }
    }
    assert records[..|records|] == records;
    ok := true;
  }

  lemma {:induction false} SpendableGrows(records: seq<Record>, n: nat)
    requires n < |records|
    ensures SpendableOf(records[..n + 1]) == SpendableOf(records[..n]) + if Spendable(records[n]) then [records[n]] else []
    ensures forall r :: r in records[..n + 1] <==> r in records[..n] || r == records[n]
  {
    assert records[..n + 1] == records[..n] + [records[n]];
  }

  /** What the first n records have passed of the release loop's checks. */
  ghost predicate Checked(records: seq<Record>, n: nat, timeout: nat, confirms: Confirmations, decodes: Record -> bool)
    requires n <= |records|
  {
    forall q :: q in records[..n] && Spendable(q) ==> TimedOut(q, timeout, confirms) && decodes(q)
  }

  lemma {:induction false} NoneSpendable(records: seq<Record>)
    ensures SpendableOf(records) == [] <==> forall q :: q in records ==> !Spendable(q)
    ensures forall q :: q in SpendableOf(records) <==> q in records && !q.spent && q.value > 0
  {
    if records != [] {
      NoneSpendable(records[..|records| - 1]);
      SpendableGrows(records, |records| - 1);
      assert records[..|records|] == records;
      assert forall q :: q in SpendableOf(records) <==>
               q in SpendableOf(records[..|records| - 1]) || (q == records[|records| - 1] && Spendable(q));
    }
  }

  /** The inputs ReleaseFundsAfterTimeout sweeps, or why it does not: decodes says whether a record's
      address and transaction hash decode. */
  method TimeoutInputs(records: seq<Record>, terms: Terms, confirms: Confirmations, decodes: Record -> bool)
    returns (r: Result<seq<Record>, Failure>)
    ensures r.Ok? <==> Releasable(records, TimeoutOf(terms), confirms, decodes)
    ensures r.Ok? ==> r.value == SpendableOf(records) && forall q :: q in r.value <==> q in records && !q.spent && q.value > 0
    ensures r.Err? && r.error.TimeLocked? ==> exists q :: q in records && Spendable(q) && Young(q, TimeoutOf(terms), confirms)
    ensures r.Err? && r.error.NoInputs? ==> forall q :: q in records ==> !Spendable(q)
  {
    var timeout := TimeoutOf(terms);
    var inputs := [];
    for n := 0 to |records|
      invariant inputs == SpendableOf(records[..n])
      invariant Checked(records, n, timeout, confirms, decodes)
    {
      var q := records[n];
      assert q in records;
      SpendableGrows(records, n);
      if !q.spent && q.value > 0 {
        var actual := confirms(TrimPrefix(q.txid));
        if actual.None? {
          return Err(BadTransaction);
        }
        if actual.value < timeout {
          return Err(TimeLocked(q.txid, timeout - actual.value));
        }
        if !decodes(q) {
          return Err(BadAddress);
        }
        inputs := inputs + [q];
      }
    }
    assert records[..|records|] == records;
    NoneSpendable(records);
    if inputs == [] {
      return Err(NoInputs);
    }
    r := Ok(inputs);
  }

  /** Confirmation counts never go down; a lookup may still fail. */
  ghost predicate NoEarlier(before: Confirmations, after: Confirmations) {
    forall txid :: before(txid).Some? && after(txid).Some? ==> before(txid).value <= after(txid).value
  }

  /** The two windows never overlap: once the vendor can take the escrow, no dispute can be opened on
      the same records, then or at any later confirmation count. */
  lemma {:induction false} WindowsAreDisjoint(records: seq<Record>, timeout: nat, before: Confirmations, after: Confirmations,
                                              decodes: Record -> bool)
    requires Releasable(records, timeout, before, decodes) && NoEarlier(before, after)
    ensures !Disputeable(records, timeout, before) && !Disputeable(records, timeout, after)
  {
    var r :| r in records && Spendable(r);
    assert TimedOut(r, timeout, before);
    assert !Young(r, timeout, after);
  }

  /** Where the windows meet: an unspent coin with n confirmations may be disputed while n is below the
      product of hours and blocks an hour, and is the vendor's from there on. A product of 2^32 or more
      wraps; at a multiple of it no coin can ever be disputed. */
  lemma {:induction false} WindowsMeet(r: Record, terms: Terms, n: nat, confirms: Confirmations, decodes: Record -> bool)
    requires confirms(TrimPrefix(r.txid)) == Some(n) && decodes(r) && !r.spent && r.value > 0
    ensures var product := terms.escrowTimeoutHours * terms.confirmationsPerHour;
            (product < 0x1_0000_0000 ==>
               (Disputeable([r], TimeoutOf(terms), confirms) <==> n < product) &&
               (Releasable([r], TimeoutOf(terms), confirms, decodes) <==> n >= product)) &&
            (product % 0x1_0000_0000 == 0 ==>
               !Disputeable([r], TimeoutOf(terms), confirms) && Releasable([r], TimeoutOf(terms), confirms, decodes))
  {
    assert r in [r];
  }

  /** Both windows are closed exactly in between: some record has timed out, and either nothing is
      left to spend or something spendable has not timed out yet. */
  lemma {:induction false} NeitherWindow(records: seq<Record>, timeout: nat, confirms: Confirmations, decodes: Record -> bool)
    requires forall r :: r in records ==> confirms(TrimPrefix(r.txid)).Some? && decodes(r)
    ensures !Disputeable(records, timeout, confirms) && !Releasable(records, timeout, confirms, decodes) <==>
            (exists r :: r in records && TimedOut(r, timeout, confirms)) &&
            ((forall r :: r in records ==> !Spendable(r)) || exists r :: r in records && Spendable(r) && Young(r, timeout, confirms))
  {
    if !Disputeable(records, timeout, confirms) {
      var r :| r in records && !Young(r, timeout, confirms);
      assert TimedOut(r, timeout, confirms);
    }
  }
}
