/**
 * JavaScript values as they arrive from JSON bodies and as the core builds
 * them: the primitives, arrays and plain objects.  An object is the ordered
 * list of its own entries, as `Object.entries` lists them.
 */
module JsValue {
  import opened Wrappers
  import opened JsText

  datatype Json =
    | Null
    | Undefined
    | Bool(b: bool)
    | Num(n: int)
    | Str(s: string)
    | Arr(items: seq<Json>)
    | Obj(entries: seq<(string, Json)>)

  /** What a call can throw. */
  datatype JsError = TypeError | SyntaxError | Error(message: string)

  /** JavaScript truthiness (`Boolean(v)`, `!v`, `a || b`). */
  predicate Truthy(v: Json) {
    match v
    case Null => false
    case Undefined => false
    case Bool(b) => b
    case Num(n) => n != 0
    case Str(s) => s != ""
    case Arr(_) => true
    case Obj(_) => true
  }

  /** The values `??` and `?.` treat as missing. */
  predicate IsNullish(v: Json) {
    v.Null? || v.Undefined?
  }

  /** `a ?? b`. */
  function Coalesce(a: Json, b: Json): (r: Json)
    ensures !IsNullish(a) ==> r == a
    ensures IsNullish(a) ==> r == b
  {
    if IsNullish(a) then b else a
  }

  /** `a || b`. */
  function Or(a: Json, b: Json): (r: Json)
    ensures Truthy(a) ==> r == a
    ensures !Truthy(a) ==> r == b
  {
    if Truthy(a) then a else b
  }

  // ---------------------------------------------------------------------------
  // Object entries

  function Keys(entries: seq<(string, Json)>): (ks: seq<string>)
    ensures |ks| == |entries|
    ensures forall i :: 0 <= i < |entries| ==> ks[i] == entries[i].0
  {
    seq(|entries|, i requires 0 <= i < |entries| => entries[i].0)
  }

  /** The value of the first entry named `k`. */
  function Lookup(entries: seq<(string, Json)>, k: string): (r: Option<Json>)
    ensures r.None? <==> k !in Keys(entries)
    ensures r.Some? ==> exists j :: 0 <= j < |entries| && entries[j] == (k, r.value)
    decreases |entries|
  {
    if entries == [] then None
    else if entries[0].0 == k then Some(entries[0].1)
    else
      assert Keys(entries) == [entries[0].0] + Keys(entries[1..]);
      var r := Lookup(entries[1..], k);
      assert r.Some? ==> (exists j :: 0 <= j < |entries[1..]| && entries[1..][j] == (k, r.value));
      r
  }

  /** `k in v` (only objects have entries). */
  predicate Has(v: Json, k: string) {
    v.Obj? && k in Keys(v.entries)
  }

  /** `v[k]`, `v?.[k]`: `undefined` when absent or when `v` is not an object. */
  function Get(v: Json, k: string): Json {
    if v.Obj? then Lookup(v.entries, k).GetOr(Undefined) else Undefined
  }

  /** `typeof v === 'string' ? v : null`. */
  function AsString(v: Json): (r: Option<string>)
    ensures r.Some? <==> v.Str?
    ensures r.Some? ==> v == Str(r.value)
  {
    if v.Str? then Some(v.s) else None
  }

  /** `v.length`, which throws on null and undefined. */
  function Length(v: Json): (r: Result<Json, JsError>)
    ensures r.Err? <==> IsNullish(v)
  {
    match v
    case Null => Err(TypeError)
    case Undefined => Err(TypeError)
    case Arr(items) => Ok(Num(|items|))
    case Str(s) => Ok(Num(|s|))
    case Obj(_) => Ok(Get(v, "length"))
    case _ => Ok(Undefined)
  }

  /** `v[0]`, which throws on null and undefined. */
  function First(v: Json): (r: Result<Json, JsError>)
    ensures r.Err? <==> IsNullish(v)
    ensures v.Arr? && v.items != [] ==> r == Ok(v.items[0])
    ensures v.Arr? && v.items == [] ==> r == Ok(Undefined)
    ensures v.Obj? ==> r == Ok(Get(v, "0"))
  {
    match v
    case Null => Err(TypeError)
    case Undefined => Err(TypeError)
    case Arr(items) => Ok(if items != [] then items[0] else Undefined)
    case Str(s) => Ok(if s != [] then Str([s[0]]) else Undefined)
    case Obj(_) => Ok(Get(v, "0"))
    case _ => Ok(Undefined)
  }

  lemma KeysCons(e: (string, Json), rest: seq<(string, Json)>)
    ensures Keys([e] + rest) == [e.0] + Keys(rest)
  {
  }

  /** `o[k] = x`: overwrites the entry in place, or appends a new one. */
  function Put(entries: seq<(string, Json)>, k: string, x: Json): (r: seq<(string, Json)>)
    ensures k in Keys(entries) ==> Keys(r) == Keys(entries)
    ensures k !in Keys(entries) ==> Keys(r) == Keys(entries) + [k]
    decreases |entries|
  {
    if entries == [] then [(k, x)]
    else
      KeysCons(entries[0], entries[1..]);
      assert [entries[0]] + entries[1..] == entries;
      if entries[0].0 == k then
        KeysCons((k, x), entries[1..]);
        [(k, x)] + entries[1..]
      else
        var rest := Put(entries[1..], k, x);
        KeysCons(entries[0], rest);
        [entries[0]] + rest
  }

  /** After `o[k] = x`, `o[k]` is `x` and every other key keeps its value. */
  lemma {:induction false} PutLookup(entries: seq<(string, Json)>, k: string, x: Json, k': string)
    ensures Lookup(Put(entries, k, x), k') == if k' == k then Some(x) else Lookup(entries, k')
    decreases |entries|
  {
    if entries != [] && entries[0].0 != k {
      PutLookup(entries[1..], k, x, k');
    }
  }

  /** `{...base, ...more}` on entry lists: each entry of `more` is put in turn. */
  function Assign(base: seq<(string, Json)>, more: seq<(string, Json)>): seq<(string, Json)>
    decreases |more|
  {
    if more == [] then base else Assign(Put(base, more[0].0, more[0].1), more[1..])
  }

  /** After an assignment a key holds either its old value or one of the values assigned to it. */
  lemma {:induction false} AssignLookup(base: seq<(string, Json)>, more: seq<(string, Json)>, k: string)
    ensures Lookup(Assign(base, more), k) == Lookup(base, k)
         || exists j :: 0 <= j < |more| && more[j].0 == k && Lookup(Assign(base, more), k) == Some(more[j].1)
    decreases |more|
  {
    if more != [] {
      var base' := Put(base, more[0].0, more[0].1);
      AssignLookup(base', more[1..], k);
      PutLookup(base, more[0].0, more[0].1, k);
      var r := Lookup(Assign(base, more), k);
      if r == Lookup(base', k) {
        if more[0].0 == k {
          assert r == Some(more[0].1);
        }
      } else {
        var j :| 0 <= j < |more[1..]| && more[1..][j].0 == k && r == Some(more[1..][j].1);
        assert more[j + 1].0 == k && r == Some(more[j + 1].1);
      }
    }
  }

  /** Keys nobody assigns keep their value. */
  lemma {:induction false} AssignUntouched(base: seq<(string, Json)>, more: seq<(string, Json)>, k: string)
    requires k !in Keys(more)
    ensures Lookup(Assign(base, more), k) == Lookup(base, k)
    decreases |more|
  {
    if more != [] {
      assert Keys(more[1..]) == Keys(more)[1..];
      PutLookup(base, more[0].0, more[0].1, k);
      AssignUntouched(Put(base, more[0].0, more[0].1), more[1..], k);
    }
  }

  /** No key occurs twice among the entries. */
  predicate DistinctKeys(entries: seq<(string, Json)>) {
    forall i, j :: 0 <= i < j < |entries| ==> entries[i].0 != entries[j].0
  }

  /** With distinct keys in `more`, `Object.assign` reads each key from `more` when it
      has it and from `base` otherwise. */
  lemma {:induction false} AssignLookupDistinct(base: seq<(string, Json)>, more: seq<(string, Json)>, k: string)
    requires DistinctKeys(more)
    ensures Lookup(Assign(base, more), k) == if k in Keys(more) then Lookup(more, k) else Lookup(base, k)
    decreases |more|
  {
    if more != [] {
      assert Keys(more) == [more[0].0] + Keys(more[1..]);
      PutLookup(base, more[0].0, more[0].1, k);
      if k == more[0].0 {
        assert k !in Keys(more[1..]) by {
          forall j | 0 <= j < |more[1..]| ensures Keys(more[1..])[j] != k {
            assert more[1..][j] == more[j + 1];
          }
        }
        AssignUntouched(Put(base, more[0].0, more[0].1), more[1..], k);
      } else {
        AssignLookupDistinct(Put(base, more[0].0, more[0].1), more[1..], k);
      }
    }
  }

  /** The own enumerable entries that `...v` copies: an object's entries, an array's or a
      string's elements under their indices, nothing for the other primitives. */
  function Spread(v: Json): (r: seq<(string, Json)>)
    ensures v.Obj? ==> r == v.entries
  {
    match v
    case Obj(entries) => entries
    case Arr(items) => seq(|items|, i requires 0 <= i < |items| => (IntToString(i), items[i]))
    case Str(s) => seq(|s|, i requires 0 <= i < |s| => (IntToString(i), Str([s[i]])))
    case _ => []
  }

  // ---------------------------------------------------------------------------
  // String(v)

  /** `String(v)` for the values modelled here. */
  function ToStr(v: Json): string
  {
    match v
    case Null => "null"
    case Undefined => "undefined"
    case Bool(b) => if b then "true" else "false"
    case Num(n) => IntToString(n)
    case Str(s) => s
    case Obj(_) => "[object Object]"
    case Arr(items) =>
      // Array.prototype.join writes null and undefined elements as empty strings.
      Join(seq(|items|, i requires 0 <= i < |items| => if IsNullish(items[i]) then "" else ToStr(items[i])), ',')
  }
}
