/** The manager's `BankTransactionsScreen`: which server answers replace the
    transaction list, and how a transaction amount is shown. */
module BankTransactions {
  import opened Types
  import Js
  import Text

  const JsonType := "application/json"

  /** The body as `response.json()` sees it: not JSON (the call throws), or a value. */
  datatype Body = NotJson | Parsed(value: Js.Value)

  /** How `fetch` ends: it rejects, or an answer with `ok`, the `content-type`
      header (`None` when absent) and the body. */
  datatype TxReply = TxUnreachable | TxAnswer(ok: bool, contentType: Option<string>, body: Body)

  /** The verdict of the `every` callback on one item, or of the whole `every`. */
  datatype Check = Passes | Fails | Throws

  /** `item.id && item.date && item.description && item.amount !== undefined`:
      reading a field of `null`/`undefined` throws; otherwise the three text
      fields must be truthy and the amount present (a `0` amount passes). */
  function ItemCheck(item: Js.Value): (c: Check)
    ensures c == Throws <==> item.Undefined? || item.Null?
    ensures c == Passes ==> item.Obj?
    ensures c == Passes <==>
      && item.Obj?
      && Js.Truthy(Js.Field(item, "id"))
      && Js.Truthy(Js.Field(item, "date"))
      && Js.Truthy(Js.Field(item, "description"))
      && Js.Field(item, "amount") != Js.Undefined
  {
    match Js.Member(item, "id")
    case Threw => Throws
    case Got(id) =>
      if Js.Truthy(id) && Js.Truthy(Js.Field(item, "date")) && Js.Truthy(Js.Field(item, "description"))
        && Js.Field(item, "amount") != Js.Undefined
      then Passes
      else Fails
  }

  /** `data.every(...)`: stops at the first item that does not pass. */
  function Every(items: seq<Js.Value>): (c: Check)
    ensures c == Passes <==> forall i :: 0 <= i < |items| ==> ItemCheck(items[i]) == Passes
  {
    if items == [] then Passes
    else match ItemCheck(items[0])
      case Passes => Every(items[1..])
      case other => other
  }

  /** A verdict other than `Passes` is the verdict on the first item that did
      not pass; the items after it are never looked at. */
  lemma {:induction false} EveryStopsAtFirstMiss(items: seq<Js.Value>)
    requires Every(items) != Passes
    ensures exists i ::
      && 0 <= i < |items| && ItemCheck(items[i]) == Every(items)
      && (forall j :: 0 <= j < i ==> ItemCheck(items[j]) == Passes)
    decreases |items|
  {
    if ItemCheck(items[0]) == Passes {
      var tail := items[1..];
      EveryStopsAtFirstMiss(tail);
      var i :| 0 <= i < |tail| && ItemCheck(tail[i]) == Every(tail)
        && forall j :: 0 <= j < i ==> ItemCheck(tail[j]) == Passes;
      assert ItemCheck(items[i + 1]) == Every(items);
      forall j | 0 <= j < i + 1
        ensures ItemCheck(items[j]) == Passes
      {
        if j > 0 {
          assert items[j] == tail[j - 1];
        }
      }
    } else {
      assert ItemCheck(items[0]) == Every(items);
    }
  }

  datatype Alert = NoAlert | UnexpectedFormat | ConnectionError

  datatype FetchResult = FetchResult(transactions: seq<Js.Value>, alert: Alert)

  /** The answer is looked at only when it is ok and declares JSON. */
  predicate Considered(reply: TxReply) {
    reply.TxAnswer? && reply.ok && reply.contentType.Some? && Text.Includes(reply.contentType.value, JsonType)
  }

  /** `fetchTransactions`, run once on mount with the current list. */
  function FetchTransactions(current: seq<Js.Value>, reply: TxReply): (r: FetchResult)
    ensures r.alert == NoAlert <==>
      Considered(reply) && reply.body.Parsed? && reply.body.value.Arr? && Every(reply.body.value.items) == Passes
    ensures r.alert == NoAlert ==> r.transactions == reply.body.value.items
    ensures r.alert != NoAlert ==> r.transactions == current
    ensures r.alert == ConnectionError <==>
      reply.TxUnreachable?
      || (Considered(reply) && (reply.body.NotJson? || (reply.body.value.Arr? && Every(reply.body.value.items) == Throws)))
  {
    match reply
    case TxUnreachable => FetchResult(current, ConnectionError)
    case TxAnswer(ok, contentType, body) =>
      if !Considered(reply) then FetchResult(current, UnexpectedFormat)
      else match body
        case NotJson => FetchResult(current, ConnectionError)
        case Parsed(data) =>
          if !data.Arr? then FetchResult(current, UnexpectedFormat)
          else match Every(data.items)
            case Passes => FetchResult(data.items, NoAlert)
            case Fails => FetchResult(current, UnexpectedFormat)
            case Throws => FetchResult(current, ConnectionError)
  }

  /** An empty array from a JSON answer is accepted and empties the list. */
  lemma EmptyArrayAccepted(current: seq<Js.Value>, contentType: string)
    requires Text.Includes(contentType, JsonType)
    ensures FetchTransactions(current, TxAnswer(true, Some(contentType), Parsed(Js.Arr([])))) == FetchResult([], NoAlert)
  {
  }

  /** A header that merely contains the JSON type (with a charset, say) is
      enough: the test is a substring search, not an equality. */
  lemma JsonTypeAnywhereInHeader(current: seq<Js.Value>, contentType: string, items: seq<Js.Value>)
    requires exists i :: Text.OccursAt(contentType, JsonType, i)
    requires forall i :: 0 <= i < |items| ==> ItemCheck(items[i]) == Passes
    ensures FetchTransactions(current, TxAnswer(true, Some(contentType), Parsed(Js.Arr(items)))) == FetchResult(items, NoAlert)
  {
    Text.IncludesIffWindow(contentType, JsonType);
  }

  /** A `null` entry after a failing entry is never read: `every` has stopped,
      so the answer is refused as a format error, not a connection error. */
  lemma ShortCircuitHidesLaterNull(bad: Js.Value, rest: seq<Js.Value>)
    requires ItemCheck(bad) == Fails
    ensures Every([bad, Js.Null] + rest) == Fails
  {
  }

  /** The amount test is `!== undefined` only: a `null` amount and a zero
      amount both pass. */
  lemma AmountOnlyNeedsPresence(id: string, date: string, description: string, amount: Js.Value)
    requires id != "" && date != "" && description != "" && !amount.Undefined?
    ensures ItemCheck(Js.Obj(map["id" := Js.Str(id), "date" := Js.Str(date), "description" := Js.Str(description), "amount" := amount])) == Passes
  {
  }

  /** The shown amount: `+n ₺` when `n >= 0`, else `-n ₺`; green iff not negative. */
  datatype AmountView = AmountView(text: string, green: bool)

  const Currency := " ₺"

  function ShowAmount(amount: int): (v: AmountView)
    ensures v.green <==> amount >= 0
    ensures |v.text| > 0 && (v.text[0] == '+' <==> amount >= 0) && (v.text[0] == '-' <==> amount < 0)
    ensures |v.text| >= 2 + |Currency| && v.text[|v.text| - |Currency|..] == Currency
  {
    var digits := Text.IntToString(amount);
    AmountView(if amount >= 0 then "+" + digits + Currency else digits + Currency, amount >= 0)
  }

  /** Reads a shown amount back: a sign, decimal digits, then the currency. */
  function ReadAmount(shown: string): Option<int> {
    if |shown| < 2 + |Currency| || shown[|shown| - |Currency|..] != Currency then None
    else
      var digits := shown[1..|shown| - |Currency|];
      if !(forall i :: 0 <= i < |digits| ==> Text.IsDigit(digits[i])) then None
      else
        var magnitude: int := Text.DigitsValue(digits);
        if shown[0] == '+' then Some(magnitude)
        else if shown[0] == '-' then Some(-magnitude)
        else None
  }

  /** The label determines the amount, so zero is shown as `+0 ₺`. */
  lemma ShowAmountRoundTrip(amount: int)
    ensures ReadAmount(ShowAmount(amount).text) == Some(amount)
  {
    var shown := ShowAmount(amount).text;
    var n: nat := if amount >= 0 then amount else -amount;
    Text.NatToStringRoundTrip(n);
    assert shown[1..|shown| - |Currency|] == Text.NatToString(n);
  }
}
