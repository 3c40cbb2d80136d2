/** JavaScript objects as the pages use them: form state and documents are
    plain objects from field names to values, read with `obj.field`, updated
    with `{ ...obj, [name]: value }` and stripped with `const { f, ...rest } =
    obj`. */
module JsRecord {
  import opened JsText
  import opened JsNumber

  /** A field value: absent (`undefined`), text, or a number. */
  datatype JsValue = Undefined | Str(s: string) | Number(n: Num)

  /** A plain object; a name that is not a key reads as `undefined`. */
  type Record = map<string, JsValue>

  /** `r[k]` */
  function Get(r: Record, k: string): JsValue {
    if k in r then r[k] else Undefined
  }

  /** JavaScript truthiness, the test behind `!x` and `x || y`: the empty
      string, 0, NaN and `undefined` are falsy. */
  predicate Truthy(v: JsValue): (b: bool)
    ensures !b <==> v in {Undefined, Str(""), Number(Val(0.0)), Number(NaN)}
  {
    match v
    case Undefined => false
    case Str(s) => s != ""
    case Number(n) => n.Val? && n.r != 0.0
  }

  /** `v || ''` for a text field: its text when there is some, else the
      empty string. Numbers are not rendered. */
  function OrEmpty(v: JsValue): (t: string)
    ensures v.Str? ==> t == v.s
    ensures !v.Str? ==> t == ""
  {
    if v.Str? then v.s else ""
  }

  /** `{ ...r, [name]: v }`: the named field takes the new value and every
      other field keeps its value. */
  function Put(r: Record, name: string, v: JsValue): (r': Record)
    ensures Get(r', name) == v
    ensures forall k :: k != name ==> Get(r', k) == Get(r, k)
    ensures r'.Keys == r.Keys + {name}
  {
    r[name := v]
  }

  /** `rest` in `const { name, ...rest } = r`: the named field is gone and
      every other field keeps its value. */
  function Omit(r: Record, name: string): (rest: Record)
    ensures name !in rest && Get(rest, name) == Undefined
    ensures forall k :: k != name ==> Get(rest, k) == Get(r, k)
    ensures rest.Keys == r.Keys - {name}
  {
    r - {name}
  }

  /** Setting one field and dropping another commute. */
  lemma OmitPutOther(r: Record, name: string, v: JsValue, gone: string)
    requires name != gone
    ensures Omit(Put(r, name, v), gone) == Put(Omit(r, gone), name, v)
  {
  }

  /** Setting a field and then dropping it is dropping it. */
  lemma OmitPutSame(r: Record, name: string, v: JsValue)
    ensures Omit(Put(r, name, v), name) == Omit(r, name)
  {
  }

  /** `Number(v)`: `undefined` is NaN, text is converted, a number is
      itself. */
  function NumberOf(v: JsValue): Num {
    match v
    case Undefined => NaN
    case Str(s) => ToNumber(s)
    case Number(n) => n
  }

  /** `parseFloat(v)`: text is read by its longest numeric prefix; a number
      reads back as itself (its string form is a decimal literal of the same
      value, or "NaN"); `undefined` reads as the text "undefined", so NaN. */
  function ParseFloatOf(v: JsValue): Num {
    match v
    case Undefined => NaN
    case Str(s) => ParseFloat(s)
    case Number(n) => n
  }

  /** `Number(v)` and `parseFloat(v)` read the decimal rendering of a whole
      number back as that number, keep a number as it is, and give NaN for
      `undefined`. */
  lemma NumberReadsBack(n: nat, x: real)
    ensures NumberOf(Str(ShowNat(n))) == Val(n as real) && ParseFloatOf(Str(ShowNat(n))) == Val(n as real)
    ensures NumberOf(Number(Val(x))) == Val(x) && ParseFloatOf(Number(Val(x))) == Val(x)
    ensures NumberOf(Undefined) == NaN && ParseFloatOf(Undefined) == NaN
  {
    assert NumberOf(Str(ShowNat(n))) == Val(n as real) by {
      ToNumberShowNat(n);
    }
    assert ParseFloatOf(Str(ShowNat(n))) == Val(n as real) by {
      ParseFloatShowNat(n);
    }
  }
}
