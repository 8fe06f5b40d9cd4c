/**
 * The small part of JavaScript's value and string semantics that the archiver
 * relies on: the shapes a decoded JSON payload can take, truthiness, the `||`
 * operator, optional property access (`a?.b`), conversion to string inside a
 * `+` concatenation, and the string built-ins `indexOf`, `replace` (with a
 * string pattern), `split(c)[0]`, `substring(k)` and `endsWith`.
 */
module JsValues {

  datatype Option<T> = None | Some(value: T)

  /** A JSON-decoded value. Numbers inside message payloads are not modelled. */
  datatype JsValue =
    | Undefined
    | Null
    | Bool(b: bool)
    | Str(s: string)
    | Obj(members: seq<Member>)

  /** One own property of an object, in insertion (enumeration) order. */
  datatype Member = Member(key: string, value: JsValue)

  /** JavaScript truthiness: `undefined`, `null`, `false` and `""` are falsy. */
  predicate Truthy(v: JsValue)
  {
    match v
    case Undefined => false
    case Null => false
    case Bool(b) => b
    case Str(s) => s != ""
    case Obj(_) => true
  }

  /** `a || b` */
  function Or(a: JsValue, b: JsValue): JsValue
  {
    if Truthy(a) then a else b
  }

  /** `k in obj`: k is an own property of the object. */
  predicate Has(members: seq<Member>, k: string)
  {
    exists i :: 0 <= i < |members| && members[i].key == k
  }

  /** The first property named k is at index i. */
  predicate FirstKeyAt(members: seq<Member>, k: string, i: int)
  {
    0 <= i < |members| && members[i].key == k && forall j :: 0 <= j < i ==> members[j].key != k
  }

  /** `obj[k]`: the value of the first property named k, `undefined` when there is none. */
  function Lookup(members: seq<Member>, k: string): (v: JsValue)
    ensures !Has(members, k) ==> v == Undefined
    ensures forall i :: FirstKeyAt(members, k, i) ==> v == members[i].value
  {
    if |members| == 0 then Undefined
    else if members[0].key == k then members[0].value
    else
      assert !Has(members, k) ==> !Has(members[1..], k) by {
        if Has(members[1..], k) {
          var i :| 0 <= i < |members[1..]| && members[1..][i].key == k;
          assert members[i + 1].key == k;
        }
      }
      assert forall i :: FirstKeyAt(members, k, i) ==> FirstKeyAt(members[1..], k, i - 1);
      Lookup(members[1..], k)
  }

  /** `v?.k`: property access that yields `undefined` on anything but an object. */
  function Get(v: JsValue, k: string): JsValue
  {
    if v.Obj? then Lookup(v.members, k) else Undefined
  }

  /** The string a value turns into on the right of `"..." + v`. */
  function ToStr(v: JsValue): string
  {
    match v
    case Undefined => "undefined"
    case Null => "null"
    case Bool(b) => if b then "true" else "false"
    case Str(s) => s
    case Obj(_) => "[object Object]"
  }

  /** `Object.keys(obj)[0]`: the first key, or nothing for an empty object. */
  function FirstKey(members: seq<Member>): Option<string>
  {
    if |members| == 0 then None else Some(members[0].key)
  }

  // ---------------------------------------------------------------------------
  // String built-ins

  /** `pat` occurs in `s` starting at index `j`. */
  predicate OccursAt(s: string, pat: string, j: int)
  {
    0 <= j && j + |pat| <= |s| && s[j..j + |pat|] == pat
  }

  /** `s.indexOf(pat, from)`: the first occurrence at or after `from`, or -1. */
  function IndexOfFrom(s: string, pat: string, from: nat): (r: int)
    requires from <= |s|
    ensures r == -1 || (from <= r && OccursAt(s, pat, r))
    ensures r != -1 ==> forall j :: from <= j < r ==> !OccursAt(s, pat, j)
    ensures r == -1 ==> forall j :: from <= j ==> !OccursAt(s, pat, j)
    decreases |s| - from
  {
    if from + |pat| > |s| then -1
    else if s[from..from + |pat|] == pat then from
    else IndexOfFrom(s, pat, from + 1)
  }

  /** `s.indexOf(pat)` */
  function IndexOf(s: string, pat: string): (r: int)
    ensures r == -1 <==> forall j :: 0 <= j ==> !OccursAt(s, pat, j)
    ensures r != -1 ==> OccursAt(s, pat, r) && forall j :: 0 <= j < r ==> !OccursAt(s, pat, j)
  {
    IndexOfFrom(s, pat, 0)
  }

  /** `s.indexOf(pat) != -1` */
  predicate Contains(s: string, pat: string)
  {
    IndexOf(s, pat) != -1
  }

  lemma ContainsAt(s: string, pat: string, j: int)
    requires OccursAt(s, pat, j)
    ensures Contains(s, pat)
  {
  }

  /**
   * `s.replace(pat, rep)` with a string pattern: only the FIRST occurrence is
   * replaced; without an occurrence the string comes back unchanged.
   */
  function ReplaceFirst(s: string, pat: string, rep: string): (r: string)
    ensures !Contains(s, pat) ==> r == s
    ensures Contains(s, pat) ==>
      exists i :: OccursAt(s, pat, i) && (forall j :: 0 <= j < i ==> !OccursAt(s, pat, j))
        && r == s[..i] + rep + s[i + |pat|..]
  {
    var i := IndexOf(s, pat);
    if i == -1 then s else s[..i] + rep + s[i + |pat|..]
  }

  /** `s.split(c)[0]`: the text before the first `c`, or all of `s`. */
  function BeforeFirst(s: string, c: char): (r: string)
    ensures c !in r
    ensures r <= s
    ensures |r| < |s| ==> s[|r|] == c
  {
    if |s| == 0 || s[0] == c then "" else [s[0]] + BeforeFirst(s[1..], c)
  }

  /** `s.substring(k)` for k >= 0: a start past the end clamps to the empty string. */
  function SubstringFrom(s: string, k: nat): (r: string)
    ensures |s| <= k ==> r == ""
    ensures k < |s| ==> |r| == |s| - k && s == s[..k] + r
  {
    if k < |s| then s[k..] else ""
  }

  /** `s.endsWith(suffix)` */
  predicate EndsWith(s: string, suffix: string)
  {
    |suffix| <= |s| && s[|s| - |suffix|..] == suffix
  }
}
