/**
 * The callback handler end to end: validation, the token exchange, collection
 * of the transactions and the CSV export, with the network's answers given
 * as inputs.
 */
module Callback {
  import opened Wrappers
  import opened Validation
  import opened Transactions
  import opened CsvExport
  import opened Text

  /** How the token exchange ended: a token, a non-ok answer with its text, or a thrown error. */
  datatype TokenExchange = TokenIssued | TokenRefused(detail: string) | TokenFailed(message: string)

  /** Everything the network answers during one request. */
  datatype Upstream = Upstream(token: TokenExchange, accounts: Listing, cards: Listing)

  datatype Payload =
    | NoContent
    | ErrorBody(error: string, detail: Option<string>)
    | Exported(transactionCount: nat, csv: string)

  datatype Response = Response(status: nat, payload: Payload)

  const TokenExchangeFailed: string := "Token exchange failed"
  const FetchFailedError: string := "Failed to fetch transactions"

  /** The handler's answer, as a function of the request, the secret and the network's answers. */
  function Respond(req: Request, secret: Option<string>, up: Upstream): Response
  {
    match Validate(req, secret)
    case Preflight => Response(200, NoContent)
    case Refuse(status, error) => Response(status, ErrorBody(error, None))
    case Admit(_, _, _) =>
      match up.token
      case TokenRefused(detail) => Response(400, ErrorBody(TokenExchangeFailed, Some(detail)))
      case TokenFailed(message) => Response(500, ErrorBody(FetchFailedError, Some(message)))
      case TokenIssued =>
        match ListingFailure(up.accounts, up.cards)
        case Some(message) => Response(500, ErrorBody(FetchFailedError, Some(message)))
        case None =>
          var txs := AllTransactions(up.accounts, up.cards);
          Response(200, Exported(|txs|, CsvText(txs)))
  }

  /** The handler, step by step. */
  method Handle(req: Request, secret: Option<string>, up: Upstream) returns (r: Response)
    ensures r == Respond(req, secret, up)
  {
    var verdict := Validate(req, secret);
    if verdict.Preflight? {
      return Response(200, NoContent);
    } else if verdict.Refuse? {
      return Response(verdict.status, ErrorBody(verdict.error, None));
    }
    match up.token {
      case TokenRefused(detail) =>
        return Response(400, ErrorBody(TokenExchangeFailed, Some(detail)));
      case TokenFailed(message) =>
        return Response(500, ErrorBody(FetchFailedError, Some(message)));
      case TokenIssued =>
    }
    var all, failure := Collect(up.accounts, up.cards);
    if failure.Some? {
      return Response(500, ErrorBody(FetchFailedError, Some(failure.value)));
    }
    var csv, count := BuildCsv(all);
    r := Response(200, Exported(count, csv));
  }

  /**
   * Validation happens before any network call: a request the ladder does not
   * admit gets the same answer whatever the network would have said.
   */
  lemma RefusedBeforeNetwork(req: Request, secret: Option<string>, up1: Upstream, up2: Upstream)
    requires !Validate(req, secret).Admit?
    ensures Respond(req, secret, up1) == Respond(req, secret, up2)
    ensures Respond(req, secret, up1).status in {200, 400, 405, 500}
  {
  }

  /**
   * Once admitted, a refused token exchange is a 400 carrying the upstream
   * text, and a thrown one a 500 carrying its message, whatever the listings.
   */
  lemma TokenExchangeFailures(req: Request, secret: Option<string>, up: Upstream)
    requires Validate(req, secret).Admit?
    ensures up.token.TokenRefused? ==>
      Respond(req, secret, up) == Response(400, ErrorBody(TokenExchangeFailed, Some(up.token.detail)))
    ensures up.token.TokenFailed? ==>
      Respond(req, secret, up) == Response(500, ErrorBody(FetchFailedError, Some(up.token.message)))
  {
  }

  /**
   * A successful answer reports exactly the collected transactions: the count
   * is their number and the CSV is the header followed by one row each.
   */
  lemma SuccessfulExport(req: Request, secret: Option<string>, up: Upstream)
    requires Respond(req, secret, up).payload.Exported?
    ensures var r := Respond(req, secret, up);
      var txs := AllTransactions(up.accounts, up.cards);
      r.status == 200 && r.payload.transactionCount == |txs| &&
      r.payload.csv == CsvText(txs) && Header <= r.payload.csv &&
      (|Split(r.payload.csv, '\n')| == 1 + r.payload.transactionCount <==> NoLineBreaks(txs))
  {
    var txs := AllTransactions(up.accounts, up.cards);
    assert Respond(req, secret, up) == Response(200, Exported(|txs|, CsvText(txs)));
    CsvStartsWithHeader(txs);
    CsvLines(txs);
  }

  /** When every listing or transaction fetch fails, an admitted request exports the header alone. */
  lemma EveryFetchFailed(req: Request, secret: Option<string>, up: Upstream)
    requires Validate(req, secret).Admit? && up.token.TokenIssued?
    requires !up.accounts.Unreadable? && !up.cards.Unreadable?
    requires forall k :: 0 <= k < |Fetches(up.accounts)| ==> Fetches(up.accounts)[k].FetchFailed?
    requires forall k :: 0 <= k < |Fetches(up.cards)| ==> Fetches(up.cards)[k].FetchFailed?
    ensures Respond(req, secret, up) == Response(200, Exported(0, Header))
  {
    AllFetchesFailed(up.accounts, up.cards);
    HeaderOnly([]);
  }
}
