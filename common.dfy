/** Values and helpers shared by every part of the model: optional values,
    HTTP replies, sequence searches and filters, and JavaScript's string trim. */
module Common {

  datatype Option<T> = None | Some(value: T)

  /** A MongoDB ObjectId, abstracted to a natural number. */
  type Id = nat

  /** A wall-clock instant in milliseconds since the epoch; the clock itself is
      not modelled, callers pass the instant in. */
  type Millis = int

  /** A value of a parsed JSON request body, as far as the handlers tell
      values apart: anything else (null, a fraction, an array) is `Other`. */
  datatype Value = Str(s: string) | Int(n: int) | Bool(b: bool) | Obj(fields: map<string, Value>) | Other

  /** A parsed JSON request body; an absent key is `undefined`. */
  type Body = map<string, Value>

  /** What an Express handler sends: a status code with a body, or a status
      code with the `{ error: message }` body. */
  datatype Reply<T> = Success(status: int, body: T) | Failure(status: int, error: string)
  {
    function Status(): int {
      match this
      case Success(s, _) => s
      case Failure(s, _) => s
    }
  }

  /** The elements of `s` that satisfy `p`, in their original order
      (JavaScript's `Array.prototype.filter`, or a query filter). */
  function Filter<T(!new)>(s: seq<T>, p: T -> bool): (r: seq<T>)
    ensures |r| <= |s|
    ensures forall x :: x in r <==> x in s && p(x)
    ensures forall i :: 0 <= i < |r| ==> p(r[i])
  {
    if s == [] then []
    else if p(s[0]) then [s[0]] + Filter(s[1..], p)
    else Filter(s[1..], p)
  }

  lemma {:induction false} FilterAppend<T(!new)>(a: seq<T>, b: seq<T>, p: T -> bool)
    ensures Filter(a + b, p) == Filter(a, p) + Filter(b, p)
  {
    if a != [] {
      assert (a + b)[0] == a[0] && (a + b)[1..] == a[1..] + b;
      FilterAppend(a[1..], b, p);
      if p(a[0]) {
        assert Filter(a + b, p) == [a[0]] + Filter(a[1..] + b, p);
        AppendAssoc([a[0]], Filter(a[1..], p), Filter(b, p));
      } else {
        assert Filter(a + b, p) == Filter(a[1..] + b, p);
      }
    } else {
      assert a + b == b;
    }
  }

  lemma {:induction false} FilterMultiset<T(!new)>(s: seq<T>, p: T -> bool)
    ensures multiset(Filter(s, p)) <= multiset(s)
    ensures forall x :: p(x) ==> multiset(Filter(s, p))[x] == multiset(s)[x]
  {
    if s != [] {
      assert s == [s[0]] + s[1..];
      FilterMultiset(s[1..], p);
    }
  }

  /** `Filter(s, p)` and `Filter(s, q)` for complementary `p` and `q` split
      `s` between them: their sizes add up to `|s|`. */
  lemma {:induction false} FilterComplement<T(!new)>(s: seq<T>, p: T -> bool, q: T -> bool)
    requires forall x :: q(x) == !p(x)
    ensures |Filter(s, p)| + |Filter(s, q)| == |s|
  {
    if s != [] {
      FilterComplement(s[1..], p, q);
    }
  }

  /** The elements of `s` whose key is `k`, in their original order. */
  function Select<T(!new), K(==)>(s: seq<T>, key: T -> K, k: K): (r: seq<T>)
    ensures |r| <= |s|
    ensures forall x :: x in r <==> x in s && key(x) == k
  {
    if s == [] then []
    else if key(s[0]) == k then [s[0]] + Select(s[1..], key, k)
    else Select(s[1..], key, k)
  }

  lemma SelectAbsent<T(!new), K>(s: seq<T>, key: T -> K, k: K)
    requires forall x :: x in s ==> key(x) != k
    ensures Select(s, key, k) == []
  {
    if Select(s, key, k) != [] {
      assert Select(s, key, k)[0] in Select(s, key, k);
    }
  }

  lemma AppendAssoc<X>(a: seq<X>, b: seq<X>, c: seq<X>)
    ensures a + (b + c) == (a + b) + c
  {
  }

  /** Selecting by two keys gives the same items in either order. */
  lemma {:induction false} SelectCommute<T(!new), K, L>(s: seq<T>, f: T -> K, a: K, g: T -> L, b: L)
    ensures Select(Select(s, f, a), g, b) == Select(Select(s, g, b), f, a)
  {
    if s != [] {
      SelectCommute(s[1..], f, a, g, b);
      var x := s[0];
      var sf := Select(s[1..], f, a);
      var sg := Select(s[1..], g, b);
      if f(x) == a {
        assert Select(s, f, a) == [x] + sf;
        assert ([x] + sf)[0] == x && ([x] + sf)[1..] == sf;
      } else {
        assert Select(s, f, a) == sf;
      }
      if g(x) == b {
        assert Select(s, g, b) == [x] + sg;
        assert ([x] + sg)[0] == x && ([x] + sg)[1..] == sg;
      } else {
        assert Select(s, g, b) == sg;
      }
    }
  }

  lemma {:induction false} SelectAppend<T(!new), K>(a: seq<T>, b: seq<T>, key: T -> K, k: K)
    ensures Select(a + b, key, k) == Select(a, key, k) + Select(b, key, k)
  {
    if a != [] {
      assert (a + b)[0] == a[0] && (a + b)[1..] == a[1..] + b;
      SelectAppend(a[1..], b, key, k);
      if key(a[0]) == k {
        assert Select(a + b, key, k) == [a[0]] + Select(a[1..] + b, key, k);
        AppendAssoc([a[0]], Select(a[1..], key, k), Select(b, key, k));
      } else {
        assert Select(a + b, key, k) == Select(a[1..] + b, key, k);
      }
    } else {
      assert a + b == b;
    }
  }

  /** The index of the first element of `s` satisfying `p`, the way a
      `findOne` over a collection in natural order picks its document. */
  function FindFirst<T>(s: seq<T>, p: T -> bool): (r: Option<nat>)
    ensures r.Some? ==> r.value < |s| && p(s[r.value])
    ensures r.Some? ==> forall j :: 0 <= j < r.value ==> !p(s[j])
    ensures r.None? <==> forall j :: 0 <= j < |s| ==> !p(s[j])
  {
    if s == [] then None
    else if p(s[0]) then Some(0)
    else match FindFirst(s[1..], p)
      case None => None
      case Some(i) => Some(i + 1)
  }

  /** The characters JavaScript's `String.prototype.trim` removes: the
      ECMAScript WhiteSpace and LineTerminator code points. */
  predicate IsJsSpace(c: char) {
    c == '\t' || c == '\n' || c == '\U{000B}' || c == '\U{000C}' || c == '\r' || c == ' '
    || c == '\U{00A0}' || c == '\U{1680}' || ('\U{2000}' <= c <= '\U{200A}')
    || c == '\U{2028}' || c == '\U{2029}' || c == '\U{202F}' || c == '\U{205F}'
    || c == '\U{3000}' || c == '\U{FEFF}'
  }

  /** How many white-space characters `s` starts with. */
  function LeadingSpaces(s: string): (n: nat)
    ensures n <= |s|
    ensures forall k :: 0 <= k < n ==> IsJsSpace(s[k])
    ensures n < |s| ==> !IsJsSpace(s[n])
  {
    if s == [] || !IsJsSpace(s[0]) then 0 else 1 + LeadingSpaces(s[1..])
  }

  /** How many white-space characters `s` ends with. */
  function TrailingSpaces(s: string): (n: nat)
    ensures n <= |s|
    ensures forall k :: |s| - n <= k < |s| ==> IsJsSpace(s[k])
    ensures n < |s| ==> !IsJsSpace(s[|s| - n - 1])
  {
    if s == [] || !IsJsSpace(s[|s| - 1]) then 0 else 1 + TrailingSpaces(s[..|s| - 1])
  }

  /** `String.prototype.trim`: `s` without its leading and trailing white space. */
  function Trim(s: string): (r: string)
    ensures |r| <= |s|
    ensures r != [] ==> !IsJsSpace(r[0]) && !IsJsSpace(r[|r| - 1])
    ensures LeadingSpaces(s) + |r| <= |s|
    ensures r == s[LeadingSpaces(s)..LeadingSpaces(s) + |r|]
    ensures forall k :: LeadingSpaces(s) + |r| <= k < |s| ==> IsJsSpace(s[k])
  {
    var i := LeadingSpaces(s);
    var t := s[i..];
    var j := TrailingSpaces(t);
    assert t[..|t| - j] == s[i..i + |t| - j];
    t[..|t| - j]
  }

  /** Trimming twice is trimming once. */
  lemma TrimIdempotent(s: string)
    ensures Trim(Trim(s)) == Trim(s)
  {
    var t := Trim(s);
    if t != [] {
      assert LeadingSpaces(t) == 0;
      assert t[0..] == t;
      assert TrailingSpaces(t) == 0;
    }
  }

  /** A string without white space at either end is its own trim. */
  /** A white-space character in front makes no difference to the trimmed string. */
  lemma TrimLeadingSpace(c: char, s: string)
    requires IsJsSpace(c)
    ensures Trim([c] + s) == Trim(s)
  {
    var t := [c] + s;
    assert t[1..] == s;
    assert LeadingSpaces(t) == 1 + LeadingSpaces(s);
    assert t[LeadingSpaces(t)..] == s[LeadingSpaces(s)..];
  }

  lemma TrimUnpadded(s: string)
    requires s != [] ==> !IsJsSpace(s[0]) && !IsJsSpace(s[|s| - 1])
    ensures Trim(s) == s
  {
    assert LeadingSpaces(s) == 0;
    assert s[0..] == s;
    assert TrailingSpaces(s) == 0;
  }

  /** Decimal rendering of a number, as a JavaScript template literal shows an integer. */
  function NatToString(n: nat): (r: string)
    ensures |r| >= 1
    ensures forall k :: 0 <= k < |r| ==> '0' <= r[k] <= '9'
  {
    var d := [('0' as int + n % 10) as char];
    if n < 10 then d else NatToString(n / 10) + d
  }

  function IntToString(i: int): (r: string)
    ensures |r| >= 1
    ensures r[0] == '-' <==> i < 0
    ensures i < 0 ==> r[1..] == NatToString(-i)
    ensures i >= 0 ==> r == NatToString(i)
  {
    if i < 0 then "-" + NatToString(-i) else NatToString(i)
  }

  /** The number a string of decimal digits denotes. */
  function DigitsValue(s: string): nat
    requires forall k :: 0 <= k < |s| ==> '0' <= s[k] <= '9'
  {
    if s == [] then 0 else 10 * DigitsValue(s[..|s| - 1]) + (s[|s| - 1] as int - '0' as int)
  }

  /** Reading the rendered digits back gives the number. */
  lemma {:induction false} NatToStringRoundTrip(n: nat)
    ensures DigitsValue(NatToString(n)) == n
  {
    var d := [('0' as int + n % 10) as char];
    if n >= 10 {
      NatToStringRoundTrip(n / 10);
      var r := NatToString(n / 10) + d;
      assert r[..|r| - 1] == NatToString(n / 10);
    }
  }

  /** Mongoose's cast of a JSON value to a String path: a string as is, a
      number or a boolean by its `toString()`; an object or anything else is
      a cast error. */
  function CastString(v: Value): (r: Option<string>)
    ensures r.Some? <==> v.Str? || v.Int? || v.Bool?
    ensures v.Str? ==> r == Some(v.s)
    ensures v.Int? ==> r.Some? && |r.value| >= 1 && (r.value[0] == '-' || '0' <= r.value[0] <= '9')
    ensures v.Bool? ==> r == Some(if v.b then "true" else "false")
  {
    match v
    case Str(s) => Some(s)
    case Int(n) => Some(IntToString(n))
    case Bool(b) => Some(if b then "true" else "false")
    case _ => None
  }

  /** The values Mongoose casts to `true` and to `false` for a Boolean path. */
  const CAST_TRUE: set<Value> := {Bool(true), Str("true"), Int(1), Str("1"), Str("yes")}
  const CAST_FALSE: set<Value> := {Bool(false), Str("false"), Int(0), Str("0"), Str("no")}

  /** Mongoose's cast of a JSON value to a Boolean path; any other value is a cast error. */
  function CastBoolean(v: Value): (r: Option<bool>)
    ensures r == Some(true) <==> v in CAST_TRUE
    ensures r == Some(false) <==> v in CAST_FALSE
    ensures r.None? <==> v !in CAST_TRUE + CAST_FALSE
    ensures v.Bool? ==> r == Some(v.b)
  {
    if v in CAST_TRUE then Some(true)
    else if v in CAST_FALSE then Some(false)
    else None
  }

  /** A boolean written as a string, as `String(b)` writes it, casts back to itself. */
  lemma CastBooleanOfString(b: bool)
    ensures CastBoolean(Str(CastString(Bool(b)).value)) == Some(b)
  {
  }
}
