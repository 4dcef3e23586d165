/** The shopping assistant's input coercion: the intent whitelist, entity
    cleaning, digit-only integer parsing and the result-size clamp of
    `search_products`. */
module AssistantBridge {
  import opened Common
  import opened PyText

  /** The JSON-like values an assistant reply can carry. */
  datatype PyValue =
    | PNone
    | PBool(b: bool)
    | PInt(i: int)
    | PStr(s: string)
    | PDict(fields: map<string, PyValue>)
    | POther

  /** `raw.get(key)` of a dict. */
  function Get(fields: map<string, PyValue>, key: string): PyValue {
    if key in fields then fields[key] else PNone
  }

  /** `_to_int` as written: `isdigit()` admits superscript digits that `int()`
      then refuses with `ValueError`. A `bool` is an `int` to `isinstance`. */
  function ToIntAsWritten(v: PyValue): (r: Outcome<Option<int>>)
    ensures r.Raised? <==> v.PStr? && IsDigits(v.s) && !IsDecimal(v.s)
  {
    match v
    case PInt(i) => Returned(Some(i))
    case PBool(b) => Returned(Some(if b then 1 else 0))
    case PStr(s) =>
      (match DigitsToIntAsWritten(s)
       case Raised => Raised
       case Returned(o) => Returned(if o.Some? then Some(o.value) else None))
    case _ => Returned(None)
  }

  /** A `product_id` of `"²"` raises instead of becoming `None`. */
  lemma ToIntAsWrittenRaises()
    ensures ToIntAsWritten(PStr("\U{B2}")) == Raised
  {
    SuperscriptRaises();
  }

  /** `_to_int` as meant: an int is kept, a string of decimal digits becomes
      its value, and anything else (`"-3"`, `""`, `"1.5"`, a superscript,
      `None`) becomes `None`. */
  function ToInt(v: PyValue): (r: Option<int>)
    ensures v.PInt? ==> r == Some(v.i)
    ensures v.PStr? ==> (r.Some? <==> IsDecimal(v.s))
    ensures v.PStr? && r.Some? ==> r.value == DecimalValue(v.s) && r.value >= 0
    ensures v.PNone? || v.PDict? || v.POther? ==> r == None
    ensures ToIntAsWritten(v).Returned? ==> r == ToIntAsWritten(v).value
  {
    match v
    case PInt(i) => Some(i)
    case PBool(b) => Some(if b then 1 else 0)
    case PStr(s) => if IsDecimal(s) then Some(DecimalValue(s)) else None
    case _ => None
  }

  /** A printed product id is read back as that id. */
  lemma ToIntRoundTrip(n: nat)
    ensures ToInt(PStr(NatToDecimal(n))) == Some(n)
  {
    DecimalRoundTrip(n);
  }

  const Intents: set<string> := {"search", "cart_show", "cart_add"}

  /** `validate_intent`: trimmed and lowercased, kept when it names a known
      intent, otherwise `"search"`. */
  function ValidateIntent(intent: Option<string>): (r: string)
    ensures r in Intents
    ensures var t := Lower(Strip(if intent.Some? then intent.value else ""));
            r == if t in Intents then t else "search"
  {
    var t := Lower(Strip(if intent.Some? then intent.value else ""));
    if t in Intents then t else "search"
  }

  /** A validated intent validates to itself. */
  lemma ValidateIntentIdempotent(intent: Option<string>)
    ensures ValidateIntent(Some(ValidateIntent(intent))) == ValidateIntent(intent)
  {
    var r := ValidateIntent(intent);
    PlainWord(r);
  }

  /** Strip and lower leave an intent name as it is. */
  lemma PlainWord(w: string)
    requires w in Intents
    ensures Lower(Strip(w)) == w
  {
    if w == "search" {
      LowerWord(w);
    } else if w == "cart_show" {
      LowerWord(w);
    } else {
      LowerWord(w);
    }
  }

  lemma LowerWord(w: string)
    requires w != [] && forall k :: 0 <= k < |w| ==> 'a' <= w[k] <= 'z' || w[k] == '_'
    ensures Lower(Strip(w)) == w
  {
    assert !IsSpace(w[0]) && !IsSpace(w[|w| - 1]);
    assert LStrip(w) == w && RStrip(w) == w;
    assert forall k :: 0 <= k < |w| ==> LowerChar(w[k]) == w[k];
  }

  /** `AssistantEntities` without the two price bounds (decimal parsing is
      not part of this model). */
  datatype Entities = Entities(query: Option<string>, category: Option<string>, productId: Option<int>)

  /** `value.strip() or None` for a string, `None` for anything else. */
  function CleanText(v: PyValue): (r: Option<string>)
    ensures r.Some? <==> v.PStr? && exists k :: 0 <= k < |v.s| && !IsSpace(v.s[k])
    ensures r.Some? ==> r.value == Strip(v.s) && !IsSpace(r.value[0]) && !IsSpace(r.value[|r.value| - 1])
  {
    if v.PStr? then
      StripFacts(v.s);
      var t := Strip(v.s);
      if t == [] then None else Some(t)
    else None
  }

  /** `coerce_entities(raw)`; a non-dict `raw` counts as `{}`. */
  function CoerceEntities(raw: PyValue): (e: Entities)
    ensures !raw.PDict? ==> e == Entities(None, None, None)
    ensures raw.PDict? ==>
              e.query == CleanText(Get(raw.fields, "query"))
              && e.category == CleanText(Get(raw.fields, "category"))
              && e.productId == ToInt(Get(raw.fields, "product_id"))
  {
    var fields := if raw.PDict? then raw.fields else map[];
    Entities(CleanText(Get(fields, "query")), CleanText(Get(fields, "category")), ToInt(Get(fields, "product_id")))
  }

  /** Already clean text: stripped and not blank. */
  predicate Clean(t: Option<string>) {
    t.None? || (t.value != [] && !IsSpace(t.value[0]) && !IsSpace(t.value[|t.value| - 1]))
  }

  function TextValue(t: Option<string>): PyValue {
    if t.Some? then PStr(t.value) else PNone
  }

  /** The entities written back as an assistant reply. */
  function EntitiesToRaw(e: Entities): PyValue {
    PDict(map["query" := TextValue(e.query), "category" := TextValue(e.category),
              "product_id" := if e.productId.Some? then PInt(e.productId.value) else PNone])
  }

  /** Coercion keeps clean entities exactly as they are. */
  lemma CoerceRoundTrip(e: Entities)
    requires Clean(e.query) && Clean(e.category)
    ensures CoerceEntities(EntitiesToRaw(e)) == e
  {
    var fields := EntitiesToRaw(e).fields;
    assert Get(fields, "query") == TextValue(e.query);
    assert Get(fields, "category") == TextValue(e.category);
    if e.query.Some? {
      var q := e.query.value;
      assert LStrip(q) == q && RStrip(q) == q;
      assert !IsSpace(q[0]);
    }
    if e.category.Some? {
      var c := e.category.value;
      assert LStrip(c) == c && RStrip(c) == c;
      assert !IsSpace(c[0]);
    }
  }

  /** `max(1, min(int(limit), 10))`. */
  function ResultCap(limit: int): (c: int)
    ensures 1 <= c <= 10
    ensures 1 <= limit <= 10 ==> c == limit
    ensures limit < 1 ==> c == 1
    ensures limit > 10 ==> c == 10
  {
    if limit < 1 then 1 else if limit > 10 then 10 else limit
  }

  /** `search_products`: `matches` is the filtered query ordered by
      `-updated_at`; a blank query returns nothing without querying. */
  function SearchProducts(entities: Entities, limit: int, matches: seq<int>): (r: seq<int>)
    ensures Strip(if entities.query.Some? then entities.query.value else "") == [] ==> r == []
    ensures r <= matches
    ensures |r| <= ResultCap(limit) <= 10
    ensures Strip(if entities.query.Some? then entities.query.value else "") != [] ==>
              |r| == if |matches| < ResultCap(limit) then |matches| else ResultCap(limit)
  {
    var q := Strip(if entities.query.Some? then entities.query.value else "");
    if q == [] then [] else Take(matches, ResultCap(limit))
  }
}
