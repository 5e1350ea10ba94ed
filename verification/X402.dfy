/** The x402 payment service: recording receipts, replay prevention, settlement and
    the paginated listing. */
module X402 {
  import opened Wrappers
  import opened Sums
  import opened Division
  import Text

  datatype PaymentStatus = Pending | Verified | Settled | Failed | Expired

  /** txHash is "" when the payment carries none. */
  datatype Receipt = Receipt(
    id: nat,
    payer: string,
    payee: string,
    amount: int,
    txHash: string,
    status: PaymentStatus,
    nonce: string,
    createdAt: int,
    settledAt: Option<int>)

  // ----- Filtering and sorting -----

  /** An absent or empty address does not filter; neither does an absent status. */
  datatype Filter = Filter(payer: string, payee: string, status: Option<PaymentStatus>)

  predicate Matches(r: Receipt, f: Filter) {
    && (f.payer == "" || r.payer == Text.Lower(f.payer))
    && (f.payee == "" || r.payee == Text.Lower(f.payee))
    && (f.status.None? || r.status == f.status.value)
  }

  function Select(rs: seq<Receipt>, f: Filter): seq<Receipt> {
    if rs == [] then []
    else Select(rs[..|rs| - 1], f) + (if Matches(rs[|rs| - 1], f) then [rs[|rs| - 1]] else [])
  }

  /** Behind every receipt at least as new. */
  function Place(r: Receipt, sorted: seq<Receipt>): seq<Receipt> {
    if sorted == [] || sorted[|sorted| - 1].createdAt >= r.createdAt then sorted + [r]
    else Place(r, sorted[..|sorted| - 1]) + [sorted[|sorted| - 1]]
  }

  /** Python's stable sort by creation time, newest first. */
  function NewestFirst(rs: seq<Receipt>): seq<Receipt> {
    if rs == [] then [] else Place(rs[|rs| - 1], NewestFirst(rs[..|rs| - 1]))
  }

  function Listing(rs: seq<Receipt>, f: Filter): seq<Receipt> {
    NewestFirst(Select(rs, f))
  }

  // ----- Pages -----

  /** list[start:end] for 0 <= start <= end: both ends are clipped to the list. */
  function Slice<T>(s: seq<T>, start: nat, end: nat): seq<T>
    requires start <= end
  {
    var hi := if end <= |s| then end else |s|;
    if start <= hi then s[start..hi] else []
  }

  function Page<T>(s: seq<T>, page: nat, size: nat): seq<T>
    requires page >= 1
  {
    Slice(s, (page - 1) * size, (page - 1) * size + size)
  }

  datatype Listed = Listed(items: seq<Receipt>, total: nat)

  // ----- The service -----

  function Amounts(rs: seq<Receipt>, payee: Option<string>): seq<int> {
    seq(|rs|, i requires 0 <= i < |rs| =>
      if rs[i].status.Settled? && (payee.None? || rs[i].payee == Text.Lower(payee.value)) then rs[i].amount else 0)
  }

  function NoncesOf(rs: seq<Receipt>): seq<string> {
    seq(|rs|, i requires 0 <= i < |rs| => rs[i].nonce)
  }

  ghost predicate NoncesUnique(rs: seq<Receipt>) {
    forall i, j :: 0 <= i < j < |rs| ==> rs[i].nonce != rs[j].nonce
  }

  /** A receipt is settled exactly when it carries a transaction hash. */
  ghost predicate SettledIffHash(rs: seq<Receipt>) {
    forall i :: 0 <= i < |rs| ==> rs[i].status == if rs[i].txHash != "" then Settled else Verified
  }

  /** What a settlement query makes of the store. */
  function AfterQuery(rs: seq<Receipt>, id: nat, now: int): seq<Receipt> {
    if id >= |rs| || rs[id].status.Settled? || rs[id].txHash == "" then rs
    else rs[id := rs[id].(status := Settled, settledAt := Some(now))]
  }

  class X402Service {
    /** In insertion order; a receipt's id is fresh, here its position. */
    var payments: seq<Receipt>
    var usedNonces: set<string>

    /** A nonce is used exactly when a receipt has it. */
    ghost predicate Valid()
      reads this
    {
      && (forall n :: n in usedNonces <==> n in NoncesOf(payments))
      && (forall i :: 0 <= i < |payments| ==> payments[i].id == i)
    }

    constructor ()
      ensures Valid() && payments == [] && SettledIffHash(payments)
    {
      payments, usedNonces := [], {};
    }

    method RecordPayment(payer: string, payee: string, amount: int, nonce: string, txHash: string, now: int)
      returns (receipt: Receipt)
      requires Valid()
      modifies this
      ensures Valid()
      ensures old(SettledIffHash(payments)) ==> SettledIffHash(payments)
      ensures payments == old(payments) + [receipt] && usedNonces == old(usedNonces) + {nonce}
      ensures receipt == Receipt(
        |old(payments)|, Text.Lower(payer), Text.Lower(payee), amount, txHash,
        if txHash != "" then Settled else Verified, nonce, now, if txHash != "" then Some(now) else None)
    {
      var status := if txHash != "" then Settled else Verified;
      receipt := Receipt(|payments|, Text.Lower(payer), Text.Lower(payee), amount, txHash, status, nonce, now,
                         if txHash != "" then Some(now) else None);
      payments := payments + [receipt];
      usedNonces := usedNonces + {nonce};
      assert NoncesOf(payments) == NoncesOf(old(payments)) + [nonce];
    }

    method IsNonceUsed(nonce: string) returns (used: bool)
      requires Valid()
      ensures used <==> nonce in NoncesOf(payments)
    {
      used := nonce in usedNonces;
    }

    /** The part of a verification before it awaits the facilitator; authentic is the
        signature check. */
    method Admit(authentic: bool, nonce: string) returns (admitted: bool)
      requires Valid()
      ensures admitted <==> authentic && nonce !in NoncesOf(payments)
    {
      if !authentic {
        return false;
      }
      var used := IsNonceUsed(nonce);
      return !used;
    }

    /** A verification that nothing interrupts; txHash is the facilitator's answer. A
        nonce that has already paid is refused. */
    method VerifyPaymentReceipt(authentic: bool, payer: string, payee: string, amount: int, nonce: string,
                                txHash: string, now: int)
      returns (receipt: Option<Receipt>)
      requires Valid()
      modifies this
      ensures Valid()
      ensures old(NoncesUnique(payments)) ==> NoncesUnique(payments)
      ensures old(SettledIffHash(payments)) ==> SettledIffHash(payments)
      ensures receipt.Some? <==> authentic && nonce !in old(usedNonces)
      ensures payments == old(payments) + (if receipt.Some? then [receipt.value] else [])
      ensures receipt.Some? ==> receipt.value == Receipt(
        |old(payments)|, Text.Lower(payer), Text.Lower(payee), amount, txHash,
        if txHash != "" then Settled else Verified, nonce, now, if txHash != "" then Some(now) else None)
    {
      var admitted := Admit(authentic, nonce);
      if !admitted {
        return None;
      }
      assert forall i :: 0 <= i < |payments| ==> NoncesOf(payments)[i] == payments[i].nonce;
      var r := RecordPayment(payer, payee, amount, nonce, txHash, now);
      return Some(r);
    }

    /** Asks whether a payment is settled, settling one that has a hash but was not. */
    method VerifySettlement(id: nat, now: int) returns (settled: bool)
      requires Valid()
      modifies this
      ensures Valid() && payments == AfterQuery(old(payments), id, now) && usedNonces == old(usedNonces)
      ensures settled <==>
        id < |old(payments)| && (old(payments)[id].status == Settled || old(payments)[id].txHash != "")
      ensures settled <==> id < |payments| && payments[id].status.Settled?
    {
      if id >= |payments| {
        return false;
      }
      var receipt := payments[id];
      if receipt.status == Settled {
        return true;
      }
      if receipt.txHash == "" {
        return false;
      }
      receipt := receipt.(status := Settled);
      receipt := receipt.(settledAt := Some(now));
      payments := payments[id := receipt];
      assert NoncesOf(payments) == NoncesOf(old(payments));
      return true;
    }

    /** Pages are numbered from 1; a request outside 1.. and 1..100 is refused. */
    method ListPayments(page: int, pageSize: int, f: Filter) returns (r: Result<Listed>)
      ensures r == if page < 1 || pageSize < 1 || pageSize > 100 then Err(Unprocessable)
                   else Ok(Listed(Page(Listing(payments, f), page, pageSize), |Listing(payments, f)|))
    {
      if page < 1 || pageSize < 1 || pageSize > 100 {
        return Err(Unprocessable);
      }
      var receipts := Select(payments, f);
      receipts := NewestFirst(receipts);
      var start := (page - 1) * pageSize;
      return Ok(Listed(Slice(receipts, start, start + pageSize), |receipts|));
    }

    method GetTotalRevenue(payee: Option<string>) returns (total: int)
      ensures total == Sum(Amounts(payments, payee))
    {
      total := 0;
      ghost var all := Amounts(payments, payee);
      for i := 0 to |payments|
        invariant total == Sum(all[..i])
      {
        assert all[..i + 1] == all[..i] + [all[i]];
        SumAppend(all[..i], all[i]);
        var receipt := payments[i];
        if receipt.status == Settled && (payee.None? || receipt.payee == Text.Lower(payee.value)) {
          total := total + receipt.amount;
        }
      }
      assert all[..|payments|] == all;
    }
  }

  /** Filters compare addresses without regard to case, and an empty one lets all pass. */
  lemma FilterFinds(payer: string, payee: string, r: Receipt, f: Filter)
    requires r.payer == Text.Lower(payer) && r.payee == Text.Lower(payee)
    ensures Matches(r, f) <==>
      && (f.payer == "" || Text.Lower(f.payer) == Text.Lower(payer))
      && (f.payee == "" || Text.Lower(f.payee) == Text.Lower(payee))
      && (f.status == None || f.status == Some(r.status))
  {
  }

  /** A payment counts as revenue, for its payee and in all, exactly when it has a hash. */
  lemma RevenueOfPayment(rs: seq<Receipt>, r: Receipt, payee: Option<string>)
    requires SettledIffHash(rs + [r])
    ensures Sum(Amounts(rs + [r], payee)) == Sum(Amounts(rs, payee))
      + (if r.txHash != "" && (payee == None || Text.Lower(payee.value) == r.payee) then r.amount else 0)
  {
    var all := rs + [r];
    assert all[|rs|] == r;
    assert Amounts(all, payee)[..|rs|] == Amounts(rs, payee);
  }

  // ----- Overlapping verifications -----

  /** Verifications interleave only at the await between the nonce check, which is Admit,
      and the record, which is RecordPayment. */
  datatype Turn = Check(nonce: string) | Record(nonce: string)

  /** The nonces that have paid, and those admitted whose facilitator has not answered. */
  datatype Nonces = Nonces(paid: multiset<string>, waiting: multiset<string>)

  /** A check admits a nonce that has not paid; a record follows an admission. */
  function Take(s: Nonces, t: Turn): Nonces {
    match t
    case Check(n) => if n in s.paid then s else s.(waiting := s.waiting + multiset{n})
    case Record(n) =>
      if n in s.waiting then Nonces(s.paid + multiset{n}, s.waiting - multiset{n}) else s
  }

  function TakeAll(turns: seq<Turn>): Nonces {
    if turns == [] then Nonces(multiset{}, multiset{})
    else Take(TakeAll(turns[..|turns| - 1]), turns[|turns| - 1])
  }

  ghost predicate Unique(nonces: multiset<string>) {
    forall n :: nonces[n] <= 1
  }

  /** No nonce is checked while another verification of it awaits the facilitator. */
  ghost predicate NoOverlap(turns: seq<Turn>) {
    turns == [] ||
    var n := |turns| - 1;
    NoOverlap(turns[..n]) && !(turns[n].Check? && turns[n].nonce in TakeAll(turns[..n]).waiting)
  }

  /** However verifications interleave, no nonce pays twice, counting those still to be
      recorded, if and only if none is checked while it awaits the facilitator. */
  lemma {:induction false} PaidOnceIffNoOverlap(turns: seq<Turn>)
    ensures var s := TakeAll(turns); Unique(s.paid + s.waiting) <==> NoOverlap(turns)
  {
    if turns != [] {
      var n := |turns| - 1;
      PaidOnceIffNoOverlap(turns[..n]);
      TakeKeepsUnique(TakeAll(turns[..n]), turns[n]);
    }
  }

  lemma TakeKeepsUnique(s: Nonces, t: Turn)
    ensures var after := Take(s, t);
      Unique(after.paid + after.waiting) <==>
      Unique(s.paid + s.waiting) && !(t.Check? && t.nonce in s.waiting)
  {
    var before, after := s.paid + s.waiting, Take(s, t).paid + Take(s, t).waiting;
    if t.Check? && t.nonce !in s.paid {
      assert forall n :: after[n] == before[n] + (if n == t.nonce then 1 else 0);
      assert Unique(after) ==> Unique(before) && after[t.nonce] <= 1;
      assert Unique(before) && t.nonce !in s.waiting ==> Unique(after);
    } else {
      assert forall n :: after[n] == before[n];
      assert Unique(after) <==> Unique(before);
      assert t.Check? && t.nonce in s.waiting ==> before[t.nonce] >= 2;
    }
  }

  /** A request that comes while another with its nonce awaits the facilitator: both pay. */
  lemma OverlapPaysTwice(s: Nonces, nonce: string)
    requires nonce !in s.paid && nonce in s.waiting
    ensures Take(Take(Take(s, Check(nonce)), Record(nonce)), Record(nonce)).paid[nonce] == 2
  {
    var checked := Take(s, Check(nonce));
    assert checked.paid[nonce] == 0 && checked.waiting[nonce] >= 2;
    var recorded := Take(checked, Record(nonce));
    assert recorded.paid[nonce] == 1 && recorded.waiting[nonce] >= 1;
  }

  /** Since a receipt with a hash is recorded as settled, a settlement query only ever
      reads, and answers whether the receipt has a hash. */
  lemma SettlementQueryOnlyReads(rs: seq<Receipt>, id: nat, now: int)
    requires SettledIffHash(rs)
    ensures AfterQuery(rs, id, now) == rs
    ensures id < |rs| ==> (rs[id].status.Settled? <==> rs[id].txHash != "")
  {
  }

  // ----- Pages tile the listing -----

  function Pages<T>(s: seq<T>, size: nat, n: nat): seq<T> {
    if n == 0 then [] else Pages(s, size, n - 1) + Page(s, n, size)
  }

  lemma {:induction false} FirstPages<T>(s: seq<T>, size: nat, n: nat)
    ensures Pages(s, size, n) == if n * size <= |s| then s[..n * size] else s
  {
    if n > 0 {
      FirstPages(s, size, n - 1);
      assert n * size == (n - 1) * size + size;
    }
  }

  /** The number of pages: total / size, rounded up. */
  function PageCount(total: nat, size: nat): nat
    requires size > 0
  {
    (total + size - 1) / size
  }

  lemma PageCountCovers(total: nat, size: nat)
    requires size > 0
    ensures PageCount(total, size) * size >= total
  {
    QuotientBounds(total + size - 1, size);
  }

  lemma PastTheEnd<T>(s: seq<T>, size: nat, later: nat)
    requires size > 0 && later >= 1 && (later - 1) * size >= |s|
    ensures Page(s, later, size) == []
  {
  }

  /** Every page is full but the last, which holds the rest. */
  lemma PagesAreFull<T>(s: seq<T>, size: nat, page: nat)
    requires size > 0 && page >= 1
    ensures |Page(s, page, size)| ==
      if page * size <= |s| then size else if (page - 1) * size <= |s| then |s| - (page - 1) * size else 0
  {
    assert page * size == (page - 1) * size + size;
  }

  /** The pages in order give the whole list, and every later page is empty. */
  lemma PagesTile<T>(s: seq<T>, size: nat, later: nat)
    requires size > 0 && later > PageCount(|s|, size)
    ensures Pages(s, size, PageCount(|s|, size)) == s
    ensures Page(s, later, size) == []
  {
    var n := PageCount(|s|, size);
    PageCountCovers(|s|, size);
    FirstPages(s, size, n);
    assert n * size == |s| ==> s[..n * size] == s;
    ScaledAtMost(n, later - 1, size);
    PastTheEnd(s, size, later);
  }

  // ----- The listing is the matching receipts, newest first -----

  ghost predicate Newest(rs: seq<Receipt>) {
    forall i, j :: 0 <= i < j < |rs| ==> rs[i].createdAt >= rs[j].createdAt
  }

  /** The receipts created at t, in the order they have. */
  function At(rs: seq<Receipt>, t: int): seq<Receipt> {
    if rs == [] then []
    else At(rs[..|rs| - 1], t) + (if rs[|rs| - 1].createdAt == t then [rs[|rs| - 1]] else [])
  }

  lemma AtSnoc(rs: seq<Receipt>, r: Receipt, t: int)
    ensures At(rs + [r], t) == At(rs, t) + (if r.createdAt == t then [r] else [])
  {
    assert (rs + [r])[..|rs|] == rs;
  }

  lemma {:induction false} PlaceAtLeast(r: Receipt, sorted: seq<Receipt>, t: int)
    requires r.createdAt >= t && forall i :: 0 <= i < |sorted| ==> sorted[i].createdAt >= t
    ensures forall i :: 0 <= i < |Place(r, sorted)| ==> Place(r, sorted)[i].createdAt >= t
  {
    if sorted != [] {
      PlaceAtLeast(r, sorted[..|sorted| - 1], t);
    }
  }

  lemma {:induction false} PlaceSorts(r: Receipt, sorted: seq<Receipt>)
    requires Newest(sorted)
    ensures Newest(Place(r, sorted))
  {
    if sorted != [] && sorted[|sorted| - 1].createdAt < r.createdAt {
      var n := |sorted| - 1;
      PlaceSorts(r, sorted[..n]);
      PlaceAtLeast(r, sorted[..n], sorted[n].createdAt);
    }
  }

  lemma {:induction false} PlaceAdds(r: Receipt, sorted: seq<Receipt>)
    ensures multiset(Place(r, sorted)) == multiset(sorted) + multiset{r}
  {
    if sorted != [] && sorted[|sorted| - 1].createdAt < r.createdAt {
      var n := |sorted| - 1;
      PlaceAdds(r, sorted[..n]);
      assert sorted == sorted[..n] + [sorted[n]];
    }
  }

  lemma AtLast(rs: seq<Receipt>, t: int)
    requires rs != []
    ensures var n := |rs| - 1; At(rs, t) == At(rs[..n], t) + (if rs[n].createdAt == t then [rs[n]] else [])
  {
  }

  lemma Exchange(s: seq<Receipt>, a: seq<Receipt>, b: seq<Receipt>)
    requires a == [] || b == []
    ensures s + a + b == s + b + a
  {
  }

  /** Placing keeps receipts of one moment in order, the new one last. */
  lemma {:induction false} PlaceStable(r: Receipt, sorted: seq<Receipt>, t: int)
    ensures At(Place(r, sorted), t) == At(sorted, t) + (if r.createdAt == t then [r] else [])
  {
    if sorted == [] || sorted[|sorted| - 1].createdAt >= r.createdAt {
      AtSnoc(sorted, r, t);
    } else {
      var n := |sorted| - 1;
      PlaceStable(r, sorted[..n], t);
      AtSnoc(Place(r, sorted[..n]), sorted[n], t);
      AtLast(sorted, t);
      Exchange(At(sorted[..n], t), if r.createdAt == t then [r] else [],
               if sorted[n].createdAt == t then [sorted[n]] else []);
    }
  }

  /** Sorting keeps the receipts and puts the newest first. */
  lemma {:induction false} NewestFirstSorts(rs: seq<Receipt>)
    ensures Newest(NewestFirst(rs)) && multiset(NewestFirst(rs)) == multiset(rs)
  {
    if rs != [] {
      var n := |rs| - 1;
      NewestFirstSorts(rs[..n]);
      PlaceSorts(rs[n], NewestFirst(rs[..n]));
      PlaceAdds(rs[n], NewestFirst(rs[..n]));
      assert rs == rs[..n] + [rs[n]];
    }
  }

  /** It leaves receipts of one moment in order. */
  lemma {:induction false} NewestFirstStable(rs: seq<Receipt>, t: int)
    ensures At(NewestFirst(rs), t) == At(rs, t)
  {
    if rs != [] {
      var n := |rs| - 1;
      NewestFirstStable(rs[..n], t);
      PlaceStable(rs[n], NewestFirst(rs[..n]), t);
      AtLast(rs, t);
    }
  }

  lemma {:induction false} SelectMatches(rs: seq<Receipt>, f: Filter, r: Receipt)
    ensures multiset(Select(rs, f))[r] == if Matches(r, f) then multiset(rs)[r] else 0
  {
    if rs != [] {
      SelectMatches(rs[..|rs| - 1], f, r);
      assert rs == rs[..|rs| - 1] + [rs[|rs| - 1]];
    }
  }

  /** Going through all pages shows exactly the receipts matching the filters, each as
      often as it is stored, newest first; every page after the last is empty. */
  lemma PaginationComplete(rs: seq<Receipt>, f: Filter, size: nat, later: nat, r: Receipt)
    requires size > 0 && later > PageCount(|Listing(rs, f)|, size)
    ensures var shown := Pages(Listing(rs, f), size, PageCount(|Listing(rs, f)|, size));
      && Newest(shown)
      && multiset(shown)[r] == (if Matches(r, f) then multiset(rs)[r] else 0)
      && At(shown, r.createdAt) == At(Select(rs, f), r.createdAt)
    ensures Page(Listing(rs, f), later, size) == []
  {
    PagesTile(Listing(rs, f), size, later);
    NewestFirstSorts(Select(rs, f));
    NewestFirstStable(Select(rs, f), r.createdAt);
    SelectMatches(rs, f, r);
  }
}
