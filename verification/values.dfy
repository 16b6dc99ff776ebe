/** Shared vocabulary of the adapter: failure-carrying wrappers, the loosely
    typed values that travel in envelope metadata and connector settings, and
    the "not blank" assertion the workers and the transport apply to them. */
module Values {

  datatype Option<+T> = None | Some(value: T)

  datatype Result<+T, +E> = Ok(value: T) | Err(error: E)

  /** A metadata or settings value, restricted to null, booleans, integers
      and strings. PHP arrays may also hold floats and nested arrays, which
      this type cannot express. */
  datatype Value = Null | Bool(b: bool) | Int(i: int) | Str(s: string)

  /** Envelope metadata and settings arrays: string keys, unique. */
  type Metadata = map<string, Value>

  /** `$metadata->get($key, $default)`: the stored value, or the default when
      the key is absent. */
  function Get(m: Metadata, key: string, default: Value): (v: Value)
    ensures key in m ==> v == m[key]
    ensures key !in m ==> v == default
  {
    if key in m then m[key] else default
  }

  /** A PHP array read `$a[$key]` on a missing key yields null. */
  function Lookup(m: Metadata, key: string): (v: Value)
    ensures v.Null? <==> key !in m || m[key].Null?
  {
    Get(m, key, Null)
  }

  /** The characters PHP's `trim` strips by default. */
  predicate IsTrimSpace(c: char) {
    c == ' ' || c == '\t' || c == '\n' || c == '\r' || c == '\0' || c == '\U{B}'
  }

  function TrimLeft(s: string): (r: string)
    ensures |r| <= |s| && r == s[|s| - |r|..]
    ensures |r| > 0 ==> !IsTrimSpace(r[0])
    ensures forall i :: 0 <= i < |s| - |r| ==> IsTrimSpace(s[i])
  {
    if |s| > 0 && IsTrimSpace(s[0]) then TrimLeft(s[1..]) else s
  }

  function TrimRight(s: string): (r: string)
    ensures |r| <= |s| && r == s[..|r|]
    ensures |r| > 0 ==> !IsTrimSpace(r[|r| - 1])
    ensures forall i :: |r| <= i < |s| ==> IsTrimSpace(s[i])
  {
    if |s| > 0 && IsTrimSpace(s[|s| - 1]) then TrimRight(s[..|s| - 1]) else s
  }

  /** PHP's `trim($s)`. */
  function Trim(s: string): (r: string)
    ensures |r| <= |s|
    ensures |r| > 0 ==> !IsTrimSpace(r[0]) && !IsTrimSpace(r[|r| - 1])
  {
    TrimRight(TrimLeft(s))
  }

  /** A string trims to nothing exactly when every character is whitespace. */
  lemma TrimEmptyIffAllSpace(s: string)
    ensures Trim(s) == [] <==> forall i :: 0 <= i < |s| ==> IsTrimSpace(s[i])
  {
    var l := TrimLeft(s);
    if Trim(s) == [] {
      assert l == [];
    } else {
      var r := Trim(s);
      assert r[0] == l[0];
      assert l[0] == s[|s| - |l|];
    }
  }

  /** PHP's `empty($v)` on the values modelled here. */
  predicate IsEmpty(v: Value) {
    match v
    case Null => true
    case Bool(b) => !b
    case Int(i) => i == 0
    case Str(s) => s == "" || s == "0"
  }

  /** PHP 8's loose comparison `'0' == $v` on the values modelled here:
      numeric against an integer, as a string against a string, through the
      boolean conversion against a boolean, and as `""` against null. */
  predicate LooselyEqualsZeroString(v: Value) {
    match v
    case Null => false
    case Bool(b) => !b
    case Int(i) => i == 0
    case Str(s) => s == "0"
  }

  /** `Assertion::notBlank($v)` fails exactly when this holds. */
  predicate IsBlank(v: Value) {
    || v == Bool(false)
    || (IsEmpty(v) && !LooselyEqualsZeroString(v))
    || (v.Str? && Trim(v.s) == "")
  }

  /** Blank values are precisely null, `false`, and strings of whitespace. */
  lemma BlankCharacterisation(v: Value)
    ensures IsBlank(v) <==>
      v.Null? || v == Bool(false) || (v.Str? && forall i :: 0 <= i < |v.s| ==> IsTrimSpace(v.s[i]))
  {
    match v
    case Str(s) =>
      TrimEmptyIffAllSpace(s);
      assert IsBlank(v) <==> Trim(s) == "";
    case _ =>
  }

  /** `0` and `"0"` are not blank, although PHP considers both empty. */
  lemma ZeroIsNotBlank()
    ensures !IsBlank(Int(0)) && !IsBlank(Str("0"))
    ensures IsEmpty(Int(0)) && IsEmpty(Str("0"))
  {
    assert !IsTrimSpace('0');
    assert TrimLeft("0") == "0";
    assert TrimRight("0") == "0";
  }
}
