/**
 * The transaction records returned by the banking-data API and the best-effort
 * way the callback gathers them: one listing each for accounts and cards, one
 * transaction fetch per listed item, failures read as "no results", and every
 * result appended in order, accounts first.
 */
module Transactions {
  import opened Wrappers
  import opened JsFormat

  /**
   * One record of a `results` array. Text fields may be absent (`None`);
   * `amount` is in hundredths of the account currency.
   */
  datatype Transaction = Transaction(
    timestamp: Option<CalendarDate>,
    description: Option<string>,
    merchantName: Option<string>,
    transactionType: Option<string>,
    amount: int)

  /**
   * The outcome of one per-account or per-card transaction fetch: a rejected
   * request, a non-ok status or an unreadable body is `FetchFailed` (read as
   * `{results: []}`); otherwise the parsed body, whose `results` may be missing.
   */
  datatype TxFetch = FetchFailed | Fetched(results: Option<seq<Transaction>>)

  /**
   * The outcome of the accounts (or cards) listing together with the fetches it
   * led to: `Unavailable` when the listing request was rejected or not ok;
   * `Unreadable` when its body could not be parsed, which aborts the request;
   * otherwise one transaction fetch per listed item (`None` when the listing
   * body had no `results`).
   */
  datatype Listing = Unavailable | Unreadable(message: string) | Listed(items: Option<seq<TxFetch>>)

  /** What one fetch adds to the collected transactions. */
  function Contribution(f: TxFetch): seq<Transaction>
  {
    match f
    case Fetched(Some(results)) => results
    case _ => []
  }

  /** The transaction fetches a listing led to; none unless the listing was read. */
  function Fetches(l: Listing): seq<TxFetch>
  {
    match l
    case Listed(Some(items)) => items
    case _ => []
  }

  /** The contributions of a run of fetches, concatenated in fetch order. */
  function Flatten(fs: seq<TxFetch>): seq<Transaction>
  {
    if fs == [] then [] else Flatten(fs[..|fs| - 1]) + Contribution(fs[|fs| - 1])
  }

  /** Everything the callback collects: account results, then card results. */
  function AllTransactions(accounts: Listing, cards: Listing): seq<Transaction>
  {
    Flatten(Fetches(accounts)) + Flatten(Fetches(cards))
  }

  /** The message that aborts collection, if a listing body could not be read; accounts are read first. */
  function ListingFailure(accounts: Listing, cards: Listing): (m: Option<string>)
    ensures m.Some? <==> accounts.Unreadable? || cards.Unreadable?
    ensures accounts.Unreadable? ==> m == Some(accounts.message)
    ensures !accounts.Unreadable? && cards.Unreadable? ==> m == Some(cards.message)
  {
    if accounts.Unreadable? then Some(accounts.message)
    else if cards.Unreadable? then Some(cards.message)
    else None
  }

  /** The number of records a run of fetches yields, counted fetch by fetch from the front. */
  function TotalCount(fs: seq<TxFetch>): nat
  {
    if fs == [] then 0 else |Contribution(fs[0])| + TotalCount(fs[1..])
  }

  /** `txResults.forEach(r => { if (r.results) all.push(...r.results) })`. */
  method AppendResults(all: seq<Transaction>, fetches: seq<TxFetch>) returns (grown: seq<Transaction>)
    ensures grown == all + Flatten(fetches)
  {
    grown := all;
    var i := 0;
    while i < |fetches|
      invariant 0 <= i <= |fetches|
      invariant grown == all + Flatten(fetches[..i])
    {
      match fetches[i] {
        case Fetched(Some(results)) =>
          grown := grown + results;
        case _ =>
      }
      assert fetches[..i + 1][..i] == fetches[..i];
      i := i + 1;
    }
    assert fetches[..i] == fetches;
  }

  /**
   * Steps 3 and 4 of the callback: the account transactions, then the card
   * transactions. A listing whose body cannot be read aborts with its message.
   */
  method Collect(accounts: Listing, cards: Listing) returns (all: seq<Transaction>, failure: Option<string>)
    ensures failure == ListingFailure(accounts, cards)
    ensures failure.None? ==> all == AllTransactions(accounts, cards)
  {
    all := [];
    if accounts.Unreadable? {
      return [], Some(accounts.message);
    }
    all := AppendResults(all, Fetches(accounts));
    if cards.Unreadable? {
      return [], Some(cards.message);
    }
    all := AppendResults(all, Fetches(cards));
    failure := None;
  }

  /** Collecting two runs of fetches one after the other is collecting their concatenation. */
  lemma {:induction false} FlattenAppend(fs: seq<TxFetch>, gs: seq<TxFetch>)
    ensures Flatten(fs + gs) == Flatten(fs) + Flatten(gs)
    decreases |gs|
  {
    if gs != [] {
      var last := gs[|gs| - 1];
      assert (fs + gs)[..|fs + gs| - 1] == fs + gs[..|gs| - 1];
      FlattenAppend(fs, gs[..|gs| - 1]);
    } else {
      assert fs + gs == fs;
    }
  }

  /** No record is dropped or duplicated: the collected count is the sum of what each fetch returned. */
  lemma {:induction false} FlattenLength(fs: seq<TxFetch>)
    ensures |Flatten(fs)| == TotalCount(fs)
  {
    if fs != [] {
      FlattenAppend([fs[0]], fs[1..]);
      assert [fs[0]] + fs[1..] == fs;
      assert [fs[0]][..0] == [];
      FlattenLength(fs[1..]);
    }
  }

  /** A failed fetch contributes nothing: dropping it leaves the collected records unchanged. */
  lemma SkipFailedFetch(fs: seq<TxFetch>, i: nat)
    requires i < |fs| && fs[i].FetchFailed?
    ensures Flatten(fs) == Flatten(fs[..i] + fs[i + 1..])
  {
    var before, after := fs[..i], fs[i + 1..];
    var upto := before + [fs[i]];
    assert fs == upto + after;
    FlattenAppend(upto, after);
    assert upto[..|upto| - 1] == before;
    assert Flatten(upto) == Flatten(before);
    FlattenAppend(before, after);
  }

  /** Nothing is collected exactly when every fetch came back failed or empty. */
  lemma {:induction false} FlattenEmpty(fs: seq<TxFetch>)
    ensures Flatten(fs) == [] <==> forall k :: 0 <= k < |fs| ==> Contribution(fs[k]) == []
  {
    if fs != [] {
      FlattenEmpty(fs[..|fs| - 1]);
      var init := fs[..|fs| - 1];
      assert forall k :: 0 <= k < |init| ==> init[k] == fs[k];
    }
  }

  /** When every listing or fetch fails, nothing is collected. */
  lemma AllFetchesFailed(accounts: Listing, cards: Listing)
    requires forall k :: 0 <= k < |Fetches(accounts)| ==> Fetches(accounts)[k].FetchFailed?
    requires forall k :: 0 <= k < |Fetches(cards)| ==> Fetches(cards)[k].FetchFailed?
    ensures AllTransactions(accounts, cards) == []
  {
    FlattenEmpty(Fetches(accounts));
    FlattenEmpty(Fetches(cards));
  }

  /**
   * The collected list is the account records in fetch order followed by the
   * card records in fetch order: the records of account fetch `i` sit right
   * after those of fetches `0..i`.
   */
  lemma AccountsThenCards(accounts: Listing, cards: Listing, i: nat)
    requires i < |Fetches(accounts)|
    ensures var fs := Fetches(accounts);
      AllTransactions(accounts, cards) ==
        Flatten(fs[..i]) + Contribution(fs[i]) + Flatten(fs[i + 1..]) + Flatten(Fetches(cards))
  {
    var fs := Fetches(accounts);
    assert fs == fs[..i] + [fs[i]] + fs[i + 1..];
    FlattenAppend(fs[..i] + [fs[i]], fs[i + 1..]);
    FlattenAppend(fs[..i], [fs[i]]);
    assert [fs[i]][..0] == [];
  }
}
