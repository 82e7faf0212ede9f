/** `get_latest_network_block`: the chain node's answer to the latest-block
    query, normalised to `{'block': {'header': {'height': h}}}`, or to `{}`
    when anything other than a missing key goes wrong. */
module LatestBlock {
  import opened Optional
  import TimeAlignment

  /** A decoded JSON document. */
  datatype Json =
    | JNull
    | JBool(b: bool)
    | JInt(i: int)
    | JFloat(f: real)
    | JStr(s: string)
    | JList(items: seq<Json>)
    | JObject(fields: map<string, Json>)

  /** The normalised answer: `{}` or the one-height document. */
  datatype BlockInfo = NoBlock | Block(height: int)

  /** What `value[key]` does in Python: a value, a `KeyError`, or a
      `TypeError` on something that is not a dictionary. */
  datatype Lookup = Found(value: Json) | KeyMissing | NotSubscriptable

  function Subscript(v: Json, key: string): Lookup {
    if v.JObject? then
      if key in v.fields then Found(v.fields[key]) else KeyMissing
    else NotSubscriptable
  }

  predicate IsSpace(c: char) {
    c == ' ' || c == '\t' || c == '\n' || c == '\r' || c == '\U{B}' || c == '\U{C}'
  }

  predicate IsDigit(c: char) {
    '0' <= c <= '9'
  }

  predicate AllDigits(s: string) {
    forall i :: 0 <= i < |s| ==> IsDigit(s[i])
  }

  function TrimLeft(s: string): string {
    if s != [] && IsSpace(s[0]) then TrimLeft(s[1..]) else s
  }

  function TrimRight(s: string): string {
    if s != [] && IsSpace(s[|s| - 1]) then TrimRight(s[..|s| - 1]) else s
  }

  /** The value of a string of decimal digits, most significant first. */
  function DigitsValue(s: string): nat
    requires AllDigits(s)
  {
    if s == [] then 0 else 10 * DigitsValue(s[..|s| - 1]) + (s[|s| - 1] as int - '0' as int)
  }

  /** Python's `int()` on a string: surrounding white space, an optional sign
      and at least one decimal digit; anything else raises `ValueError`. */
  function ParseInt(s: string): Option<int> {
    var t := TrimRight(TrimLeft(s));
    if t != [] && (t[0] == '-' || t[0] == '+') then
      var digits := t[1..];
      if digits != [] && AllDigits(digits) then
        Some(if t[0] == '-' then 0 - DigitsValue(digits) as int else DigitsValue(digits))
      else None
    else if t != [] && AllDigits(t) then Some(DigitsValue(t))
    else None
  }

  /** Python's `int()` on a JSON value; `None` for the values it rejects. */
  function IntOf(v: Json): Option<int> {
    match v
    case JInt(i) => Some(i)
    case JFloat(f) => Some(TimeAlignment.Trunc(f))
    case JBool(b) => Some(if b then 1 else 0)
    case JStr(s) => ParseInt(s)
    case _ => None
  }

  /** `int(block_data['block']['header']['height'])` with its `KeyError`
      handler: a missing key gives height 0, any other failure gives `{}`. */
  function HeightOf(blockData: Json): BlockInfo {
    match Subscript(blockData, "block")
    case KeyMissing => Block(0)
    case NotSubscriptable => NoBlock
    case Found(block) =>
      match Subscript(block, "header")
      case KeyMissing => Block(0)
      case NotSubscriptable => NoBlock
      case Found(header) =>
        match Subscript(header, "height")
        case KeyMissing => Block(0)
        case NotSubscriptable => NoBlock
        case Found(height) =>
          match IntOf(height)
          case None => NoBlock
          case Some(h) => Block(h)
  }

  /** `get_latest_network_block` on the fetched document (`None` when the
      request failed or its body was not JSON). A list answer stands for its
      first element; an empty list raises `IndexError` and gives `{}`. */
  function LatestNetworkBlock(fetched: Option<Json>): BlockInfo {
    match fetched
    case None => NoBlock
    case Some(JList(items)) => if items == [] then NoBlock else HeightOf(items[0])
    case Some(response) => HeightOf(response)
  }

  /** The document shape that a normalised answer has, with the height as the
      given JSON value. */
  function BlockDocument(height: Json): Json {
    JObject(map["block" := JObject(map["header" := JObject(map["height" := height])])])
  }

  /** Decimal digits of a natural number, most significant first. */
  function ShowNat(n: nat): (s: string)
    ensures s != [] && AllDigits(s)
  {
    if n < 10 then [('0' as int + n) as char] else ShowNat(n / 10) + [('0' as int + n % 10) as char]
  }

  /** How a height is written as text, as the chain node sends it. */
  function ShowInt(n: int): string {
    if n < 0 then "-" + ShowNat(-n) else ShowNat(n)
  }

  lemma {:induction false} DigitsValueOfShowNat(n: nat)
    ensures DigitsValue(ShowNat(n)) == n
  {
    var s := ShowNat(n);
    if n >= 10 {
      DigitsValueOfShowNat(n / 10);
      assert s[..|s| - 1] == ShowNat(n / 10);
    }
  }

  /** Reading back a written height gives that height. */
  lemma ParseIntOfShowInt(n: int)
    ensures ParseInt(ShowInt(n)) == Some(n)
  {
    var s := ShowInt(n);
    if n < 0 {
      DigitsValueOfShowNat(-n);
      assert s[1..] == ShowNat(-n);
    } else {
      DigitsValueOfShowNat(n);
    }
    assert TrimLeft(s) == s;
    assert TrimRight(s) == s;
  }

  /** A failed fetch normalises to `{}`. */
  lemma FetchFailureGivesNoBlock()
    ensures LatestNetworkBlock(None) == NoBlock
  {
  }

  /** A list answer is read through its first element. */
  lemma ListUsesFirstElement(first: Json, rest: seq<Json>)
    requires !first.JList?
    ensures LatestNetworkBlock(Some(JList([first] + rest))) == LatestNetworkBlock(Some(first))
  {
  }

  /** A dictionary answer missing any key on the path to the height
      normalises to height 0, not to `{}`. */
  lemma MissingKeyGivesHeightZero(response: Json)
    requires response.JObject?
    requires || "block" !in response.fields
             || (response.fields["block"].JObject? && "header" !in response.fields["block"].fields)
             || (response.fields["block"].JObject? && response.fields["block"].fields["header"].JObject?
                 && "height" !in response.fields["block"].fields["header"].fields)
    ensures LatestNetworkBlock(Some(response)) == Block(0)
  {
  }

  /** The chain node's answer, with its height written as text (alone or as
      the first element of a list), normalises to that height, and the
      normalised height document normalises to itself. (The other answer,
      `{}`, does not: it gives height 0.) */
  lemma NormaliseHeightDocument(h: int, rest: seq<Json>)
    ensures LatestNetworkBlock(Some(BlockDocument(JStr(ShowInt(h))))) == Block(h)
    ensures LatestNetworkBlock(Some(JList([BlockDocument(JStr(ShowInt(h)))] + rest))) == Block(h)
    ensures LatestNetworkBlock(Some(BlockDocument(JInt(h)))) == Block(h)
  {
    ParseIntOfShowInt(h);
  }

  /** `int()` strips only ASCII white space: a height text that starts with
      the file separator U+001C is not a number, so the document normalises
      to `{}`. */
  lemma SeparatorIsNotSpace()
    ensures LatestNetworkBlock(Some(BlockDocument(JStr("\U{1C}5")))) == NoBlock
  {
  }
}
