/**
  The invoice collection of a Lightning node (`LNInvoice`): one snapshot of
  the node's invoices, taken when the object is built, and the read-only
  queries over it. Every query is an order-preserving selection of the
  snapshot or a fold over one; none of them changes the snapshot.

  Queries that the source writes in the pandas query language are predicates
  on an invoice here, and creation dates are seconds since the epoch.
*/
module LNInvoices {
  import opened Wrappers
  import opened Seqs
  import opened PyText
  import opened Memo
  import opened InvoiceSchema
  import opened JsonValues

  /** A filter over invoices, standing for a pandas query string. */
  type InvoiceQuery = Invoice -> bool

  /** The predicate an optional query stands for: no query keeps everything. */
  function Matches(q: Option<InvoiceQuery>): InvoiceQuery {
    match q
    case None => (inv: Invoice) => true
    case Some(p) => p
  }

  function InvoiceValue(inv: Invoice): real {
    inv.value
  }

  function HasState(state: string): InvoiceQuery {
    (inv: Invoice) => inv.state == state
  }

  function CreatedAfterTime(t: int): InvoiceQuery {
    (inv: Invoice) => inv.creationDate > t
  }

  function CreatedBeforeTime(t: int): InvoiceQuery {
    (inv: Invoice) => inv.creationDate < t
  }

  function CreatedAtTime(t: int): InvoiceQuery {
    (inv: Invoice) => inv.creationDate == t
  }

  function IsSettled(inv: Invoice): bool {
    inv.settled
  }

  class LNInvoice {
    /** The snapshot `_df`, in the order the node listed the invoices. */
    const invoices: seq<Invoice>

    constructor(snapshot: seq<Invoice>)
      ensures invoices == snapshot
    {
      invoices := snapshot;
    }

    /**
      Builds the collection from the node's `listinvoices` answer, which is
      an input here; fails as the coercion of the answer fails.
    */
    static method Open(data: map<string, Json>, repr: Json -> string) returns (r: Result<LNInvoice, LoadError>)
      ensures r.Success? <==> Load(data, repr).Success?
      ensures r.Failure? ==> r.error == Load(data, repr).error
      ensures r.Success? ==> fresh(r.value) && r.value.invoices == Load(data, repr).value
    {
      var df := GetDf(data, repr);
      if df.Failure? {
        return Failure(df.error);
      }
      var inv := new LNInvoice(df.value);
      return Success(inv);
    }

    /** `get_query`: the invoices passing `q`, in order; everything when there is no query. */
    function Query(q: Option<InvoiceQuery>): (r: seq<Invoice>)
      ensures |r| <= |invoices|
      ensures forall x :: x in r <==> x in invoices && Matches(q)(x)
      ensures r == Select(invoices, Mask(invoices, Matches(q)))
      ensures q.None? ==> r == invoices
    {
      if q.None? then
        FilterAll(invoices, Matches(q));
        Filter(invoices, Matches(q))
      else
        Filter(invoices, Matches(q))
    }

    /**
      `get_sum`: the total `value` of the invoices passing `q`; with the total
      of the invoices failing `q` it makes up the total of the snapshot.
    */
    function Total(q: Option<InvoiceQuery>): (r: real)
      ensures q.None? ==> r == Sum(invoices, InvoiceValue)
      ensures r + Sum(Filter(invoices, Not(Matches(q))), InvoiceValue) == Sum(invoices, InvoiceValue)
    {
      SumPartition(invoices, Matches(q), InvoiceValue);
      Sum(Query(q), InvoiceValue)
    }

    /** `get_number_of_invoices`: how many invoices pass `q`. */
    function NumberOfInvoices(q: Option<InvoiceQuery>): (n: nat)
      ensures n <= |invoices|
      ensures q.None? ==> n == |invoices|
      ensures n == |Positions(invoices, Matches(q))|
    {
      PositionsCount(invoices, Matches(q));
      |Query(q)|
    }

    /**
      `get_with_state`: the invoices in `state` when `state` is spelled
      exactly as one of STATES; for any other text, including a lower-case
      spelling, the whole snapshot.
    */
    function WithState(state: string): (r: seq<Invoice>)
      ensures state in States ==> forall x :: x in r <==> x in invoices && x.state == state
      ensures state in States ==> r == Select(invoices, Mask(invoices, HasState(state)))
      ensures state !in States ==> r == invoices
    {
      if state in States then
        StatesUpper();
        Query(Some(HasState(AsciiUpper(state))))
      else
        invoices
    }

    /** `get_created_after`: the invoices created strictly after `t`, in order. */
    function CreatedAfter(t: int): (r: seq<Invoice>)
      ensures forall x :: x in r <==> x in invoices && x.creationDate > t
      ensures r == Select(invoices, Mask(invoices, CreatedAfterTime(t)))
    {
      Filter(invoices, CreatedAfterTime(t))
    }

    /** `get_created_before`: the invoices created strictly before `t`, in order. */
    function CreatedBefore(t: int): (r: seq<Invoice>)
      ensures forall x :: x in r <==> x in invoices && x.creationDate < t
      ensures r == Select(invoices, Mask(invoices, CreatedBeforeTime(t)))
    {
      Filter(invoices, CreatedBeforeTime(t))
    }

    /** `get_created_on`: the invoices created exactly at `t`, in order. */
    function CreatedOn(t: int): (r: seq<Invoice>)
      ensures forall x :: x in r <==> x in invoices && x.creationDate == t
      ensures r == Select(invoices, Mask(invoices, CreatedAtTime(t)))
    {
      Filter(invoices, CreatedAtTime(t))
    }

    /** `get_settled`: the settled invoices, in order. */
    function Settled(): (r: seq<Invoice>)
      ensures forall x :: x in r <==> x in invoices && x.settled
      ensures r == Select(invoices, Mask(invoices, IsSettled))
    {
      Filter(invoices, IsSettled)
    }

    /** `get_fist`: the first invoice; None where `iloc[[0]]` raises on an empty snapshot. */
    function First(): (r: Option<Invoice>)
      ensures r.Some? <==> |invoices| > 0
      ensures r.Some? ==> r.value == invoices[0] && r.value in invoices
    {
      if |invoices| == 0 then None else Some(invoices[0])
    }

    /** `get_last`: the latest invoice; None where `iloc[[-1]]` raises on an empty snapshot. */
    function Last(): (r: Option<Invoice>)
      ensures r.Some? <==> |invoices| > 0
      ensures r.Some? ==> r.value == invoices[|invoices| - 1] && r.value in invoices
    {
      if |invoices| == 0 then None else Some(invoices[|invoices| - 1])
    }

    /**
      What `get_indices` is meant to return: the positions of the invoices
      passing `q`, in increasing order, or None when there are none.
    */
    function Indices(q: InvoiceQuery): (r: Option<seq<nat>>)
      ensures r.None? <==> forall i :: 0 <= i < |invoices| ==> !q(invoices[i])
      ensures r.Some? ==> |r.value| > 0 && |r.value| == |Query(Some(q))|
      ensures r.Some? ==> forall k :: 0 <= k < |r.value| ==> r.value[k] < |invoices| && q(invoices[r.value[k]])
      ensures r.Some? ==> forall i :: 0 <= i < |invoices| && q(invoices[i]) ==> i in r.value
      ensures r.Some? ==> forall a, b :: 0 <= a < b < |r.value| ==> r.value[a] < r.value[b]
    {
      var ps := Positions(invoices, q);
      PositionsCount(invoices, q);
      if ps == [] then
        None
      else
        assert q(invoices[ps[0]]);
        Some(ps)
    }

    /**
      What `get_first_index` is meant to return: the lowest position of an
      invoice passing `q`, or None when there is none.
    */
    function FirstIndex(q: InvoiceQuery): (r: Option<nat>)
      ensures r.None? <==> forall i :: 0 <= i < |invoices| ==> !q(invoices[i])
      ensures r.Some? ==> r.value < |invoices| && q(invoices[r.value])
      ensures r.Some? ==> forall j :: 0 <= j < r.value ==> !q(invoices[j])
    {
      match Indices(q)
      case None => None
      case Some(ps) =>
        FirstPosition(invoices, q);
        Some(ps[0])
    }

    /** A query and its negation split the total between them. */
    lemma TotalPartition(p: InvoiceQuery)
      ensures Total(Some(p)) + Total(Some(Not(p))) == Total(None)
    {
      SumPartition(invoices, p, InvoiceValue);
    }

    /** A query and its negation split the count between them. */
    lemma CountPartition(p: InvoiceQuery)
      ensures NumberOfInvoices(Some(p)) + NumberOfInvoices(Some(Not(p))) == NumberOfInvoices(None)
    {
      Seqs.CountPartition(invoices, p);
    }

    /** The total over a query no invoice passes is 0. */
    lemma TotalOfNothing(p: InvoiceQuery)
      requires forall i :: 0 <= i < |invoices| ==> !p(invoices[i])
      ensures Total(Some(p)) == 0.0
      ensures NumberOfInvoices(Some(p)) == 0
    {
      FilterNone(invoices, p);
    }

    /** Every invoice was created before, at, or after a given time. */
    lemma CreationTrichotomy(t: int)
      ensures |CreatedBefore(t)| + |CreatedOn(t)| + |CreatedAfter(t)| == |invoices|
    {
      var notBefore := Filter(invoices, Not(CreatedBeforeTime(t)));
      Seqs.CountPartition(invoices, CreatedBeforeTime(t));
      Seqs.CountPartition(notBefore, CreatedAtTime(t));
      assert Filter(notBefore, CreatedAtTime(t)) == CreatedOn(t) by {
        FilterFilter(invoices, Not(CreatedBeforeTime(t)), CreatedAtTime(t), CreatedAtTime(t));
      }
      assert Filter(notBefore, Not(CreatedAtTime(t))) == CreatedAfter(t) by {
        FilterFilter(invoices, Not(CreatedBeforeTime(t)), Not(CreatedAtTime(t)), CreatedAfterTime(t));
      }
    }

    /** A snapshot of three invoices of 10, 20 and 30 satoshis totals 60 and counts 3. */
    lemma TotalScenario(a: Invoice, b: Invoice, c: Invoice)
      requires invoices == [a, b, c]
      requires a.value == 10.0 && b.value == 20.0 && c.value == 30.0
      ensures Total(None) == 60.0
      ensures NumberOfInvoices(None) == 3
    {
      assert [a][..0] == [];
      assert Sum([a], InvoiceValue) == 10.0;
      assert [a, b][..1] == [a];
      assert Sum([a, b], InvoiceValue) == 30.0;
      assert [a, b, c][..2] == [a, b];
    }

    /** A lower-case state is not one of STATES, so it selects the whole snapshot. */
    lemma LowerCaseStateKeepsAll()
      ensures WithState("open") == invoices
      ensures WithState("settled") == invoices
    {
    }
  }

  /**
    The millisatoshi amount `add` sends: `round(amount_sats * 1000)` on a
    Decimal, which rounds half to even.
  */
  function AmountMsat(amountSats: real): (msat: int)
    ensures amountSats * 1000.0 - 0.5 <= msat as real <= amountSats * 1000.0 + 0.5
  {
    RoundHalfEven(amountSats * 1000.0)
  }

  /**
    The command `add` sends to the node: the fixed words with three arguments
    in between, an amount that reads back as the rounded millisatoshis, the
    clipped memo of at most 639 bytes, and the expiry.
  */
  function AddCommand(amountSats: real, memo: string, expiry: int): (cmd: string)
    ensures exists amount: string, clipped: string, exp: string ::
      && cmd == "addinvoice --amt_msat " + amount + " --memo \"" + clipped + "\" --expiry " + exp
      && ParseInt(amount) == Some(AmountMsat(amountSats))
      && clipped == ClippedMemo(memo) && Utf8Len(clipped) <= MemoMaxBytes
      && ParseInt(exp) == Some(expiry)
  {
    var amount := IntToString(AmountMsat(amountSats));
    var exp := IntToString(expiry);
    ParseIntToString(AmountMsat(amountSats));
    ParseIntToString(expiry);
    "addinvoice --amt_msat " + amount + " --memo \"" + ClippedMemo(memo) + "\" --expiry " + exp
  }

  /** A whole number of satoshis is sent as exactly 1000 times as many millisatoshis. */
  lemma AmountMsatWhole(n: int)
    ensures AmountMsat(n as real) == 1000 * n
  {
    RoundInteger(1000 * n);
  }

  /** A half millisatoshi rounds to the even neighbour. */
  lemma AmountMsatTies()
    ensures AmountMsat(0.0005) == 0
    ensures AmountMsat(0.0015) == 2
    ensures AmountMsat(0.0025) == 2
  {
  }

  /** 69 satoshis with a memo of 1000 'A's: 69000 millisatoshis and the first 638 letters. */
  lemma AddScenario()
    ensures AmountMsat(69.0) == 69000
    ensures ClippedMemo(seq(1000, i => 'A')) == seq(638, i => 'A')
  {
    AmountMsatWhole(69);
    var m := seq(1000, i => 'A');
    ClippedMemoAscii(m);
    assert m[..638] == seq(638, i => 'A');
  }
}
