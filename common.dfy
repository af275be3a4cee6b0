/** Helpers shared by every model of the store: optional values, first-match
    search (the behaviour of `findOne` and `findIndex`), the string predicates
    the routes use (ObjectId hex test, `trim`), and the integer `Math.ceil`. */
module Common {

  datatype Option<+T> = None | Some(value: T)

  /** A user as the routes see one: the string form of the user's id. */
  type UserId = string

  /** A string that is present and not empty: what a `required` string
      validator accepts, and what a truthiness test on a string admits. */
  predicate Filled(s: Option<string>) { s.Some? && s.value != "" }

  /** Milliseconds in one minute; every instant and deadline is in milliseconds. */
  const MinuteMs: int := 60 * 1000

  // ---------------------------------------------------------------------------
  // First match in a sequence

  /** Index of the first element satisfying `p`, the way `findOne` walks a
      collection in natural order and `Array.prototype.findIndex` walks an array. */
  function IndexWhere<T>(s: seq<T>, p: T -> bool): (r: Option<nat>)
    ensures r.Some? ==> r.value < |s| && p(s[r.value])
    ensures r.Some? ==> forall j :: 0 <= j < r.value ==> !p(s[j])
    ensures r.None? <==> forall j :: 0 <= j < |s| ==> !p(s[j])
    decreases |s|
  {
    if |s| == 0 then None
    else if p(s[0]) then Some(0)
    else
      match IndexWhere(s[1..], p)
      case None => None
      case Some(i) => Some(i + 1)
  }

  /** `Array.prototype.filter`: the elements satisfying `keep`, in order. */
  function Filter<T>(s: seq<T>, keep: T -> bool): (r: seq<T>)
    ensures |r| <= |s|
    decreases |s|
  {
    if |s| == 0 then []
    else if keep(s[0]) then [s[0]] + Filter(s[1..], keep)
    else Filter(s[1..], keep)
  }

  /** The filter keeps exactly the elements satisfying `keep`. */
  lemma {:induction false} FilterMembers<T>(s: seq<T>, keep: T -> bool)
    ensures forall x :: x in Filter(s, keep) <==> x in s && keep(x)
    decreases |s|
  {
    if |s| > 0 {
      FilterMembers(s[1..], keep);
      assert forall x :: x in s <==> x == s[0] || x in s[1..];
    }
  }

  /** The filter preserves order: it distributes over concatenation, and a
      single element is kept exactly when it satisfies `keep`. */
  lemma {:induction false} FilterAppend<T>(a: seq<T>, b: seq<T>, keep: T -> bool)
    ensures Filter(a + b, keep) == Filter(a, keep) + Filter(b, keep)
    decreases |a|
  {
    if |a| == 0 {
      assert a + b == b;
    } else {
      var rest := a[1..];
      assert (a + b)[0] == a[0];
      assert (a + b)[1..] == rest + b;
      FilterAppend(rest, b, keep);
      var ra, rb := Filter(rest, keep), Filter(b, keep);
      if keep(a[0]) {
        assert Filter(a + b, keep) == [a[0]] + (ra + rb);
        assert [a[0]] + (ra + rb) == ([a[0]] + ra) + rb;
      }
    }
  }

  /** A single element is kept exactly when it satisfies `keep`. */
  lemma FilterSingle<T>(x: T, keep: T -> bool)
    ensures Filter([x], keep) == if keep(x) then [x] else []
  {
  }

  /** When exactly one element satisfies `p`, the first match is that element. */
  lemma IndexWhereUnique<T>(s: seq<T>, p: T -> bool, k: nat)
    requires k < |s| && p(s[k])
    requires forall j :: 0 <= j < |s| && j != k ==> !p(s[j])
    ensures IndexWhere(s, p) == Some(k)
  {
  }

  /** The first match depends only on which elements satisfy the predicate. */
  lemma {:induction false} IndexWhereCongruent<T, U>(a: seq<T>, p: T -> bool, b: seq<U>, q: U -> bool)
    requires |a| == |b| && forall j :: 0 <= j < |a| ==> (p(a[j]) <==> q(b[j]))
    ensures IndexWhere(a, p) == IndexWhere(b, q)
    decreases |a|
  {
    if |a| > 0 && !p(a[0]) {
      IndexWhereCongruent(a[1..], p, b[1..], q);
    }
  }

  // ---------------------------------------------------------------------------
  // Characters

  predicate IsAsciiDigit(c: char) { '0' <= c <= '9' }
  predicate IsAsciiLower(c: char) { 'a' <= c <= 'z' }
  predicate IsAsciiUpper(c: char) { 'A' <= c <= 'Z' }
  predicate IsAsciiAlnum(c: char) { IsAsciiDigit(c) || IsAsciiLower(c) || IsAsciiUpper(c) }
  predicate IsHexDigit(c: char) { IsAsciiDigit(c) || 'a' <= c <= 'f' || 'A' <= c <= 'F' }

  function LowerAscii(c: char): (d: char)
    ensures IsAsciiUpper(c) ==> IsAsciiLower(d)
    ensures !IsAsciiUpper(c) ==> d == c
  {
    if IsAsciiUpper(c) then (c as int + 32) as char else c
  }

  function UpperAscii(c: char): (d: char)
    ensures IsAsciiLower(c) ==> IsAsciiUpper(d)
    ensures !IsAsciiLower(c) ==> d == c
  {
    if IsAsciiLower(c) then (c as int - 32) as char else c
  }

  function ToLowerAscii(s: string): (r: string)
    ensures |r| == |s| && forall i :: 0 <= i < |s| ==> r[i] == LowerAscii(s[i])
  {
    seq(|s|, i requires 0 <= i < |s| => LowerAscii(s[i]))
  }

  function ToUpperAscii(s: string): (r: string)
    ensures |r| == |s| && forall i :: 0 <= i < |s| ==> r[i] == UpperAscii(s[i])
  {
    seq(|s|, i requires 0 <= i < |s| => UpperAscii(s[i]))
  }

  /** The test `/^[0-9a-fA-F]{24}$/` that decides whether a string is looked up
      as a Mongo ObjectId. */
  predicate IsObjectIdHex(s: string) {
    |s| == 24 && forall i :: 0 <= i < |s| ==> IsHexDigit(s[i])
  }

  /** Lower-casing keeps a string an ObjectId and is then idempotent. */
  lemma LowerObjectIdHex(s: string)
    requires IsObjectIdHex(s)
    ensures IsObjectIdHex(ToLowerAscii(s))
    ensures ToLowerAscii(ToLowerAscii(s)) == ToLowerAscii(s)
  {
  }

  // ---------------------------------------------------------------------------
  // String.prototype.trim

  /** The characters `String.prototype.trim` removes: white space and line
      terminators. */
  predicate IsJsSpace(c: char) {
    c == ' ' || c == '\t' || c == '\n' || c == '\r' || c == '\U{000B}' || c == '\U{000C}'
    || c == '\U{00A0}' || c == '\U{1680}' || ('\U{2000}' <= c <= '\U{200A}')
    || c == '\U{2028}' || c == '\U{2029}' || c == '\U{202F}' || c == '\U{205F}'
    || c == '\U{3000}' || c == '\U{FEFF}'
  }

  function TrimStart(s: string): (r: string)
    ensures |r| <= |s| && r == s[|s| - |r|..]
    decreases |s|
  {
    if |s| > 0 && IsJsSpace(s[0]) then TrimStart(s[1..]) else s
  }

  function TrimEnd(s: string): (r: string)
    ensures |r| <= |s| && r == s[..|r|]
    decreases |s|
  {
    if |s| > 0 && IsJsSpace(s[|s| - 1]) then TrimEnd(s[..|s| - 1]) else s
  }

  /** `trimStart` removes the leading white space and nothing else. */
  lemma {:induction false} TrimStartSpec(s: string)
    ensures var r := TrimStart(s);
            (r == [] || !IsJsSpace(r[0])) && forall i :: 0 <= i < |s| - |r| ==> IsJsSpace(s[i])
    decreases |s|
  {
    if |s| > 0 && IsJsSpace(s[0]) {
      TrimStartSpec(s[1..]);
    }
  }

  /** `trimEnd` removes the trailing white space and nothing else. */
  lemma {:induction false} TrimEndSpec(s: string)
    ensures var r := TrimEnd(s);
            (r == [] || !IsJsSpace(r[|r| - 1])) && forall i :: |r| <= i < |s| ==> IsJsSpace(s[i])
    decreases |s|
  {
    if |s| > 0 && IsJsSpace(s[|s| - 1]) {
      TrimEndSpec(s[..|s| - 1]);
    }
  }

  /** `s.trim()`. */
  function Trim(s: string): (r: string)
    ensures |r| <= |s|
  {
    TrimEnd(TrimStart(s))
  }

  /** `s.trim()` is the infix of `s` left after removing the white space at
      both ends, and it neither starts nor ends with white space. */
  lemma TrimSpec(s: string)
    ensures var r := Trim(s);
            var k := |s| - |TrimStart(s)|;
            (r == [] || (!IsJsSpace(r[0]) && !IsJsSpace(r[|r| - 1])))
            && k + |r| <= |s| && r == s[k..k + |r|]
            && (forall i :: 0 <= i < k ==> IsJsSpace(s[i]))
            && (forall i :: k + |r| <= i < |s| ==> IsJsSpace(s[i]))
  {
    TrimStartSpec(s);
    TrimIsInfix(s);
    TrimDropsTrailingSpace(s);
    TrimEndsNonSpace(s);
  }

  lemma TrimIsInfix(s: string)
    ensures var k := |s| - |TrimStart(s)|;
            k + |Trim(s)| <= |s| && Trim(s) == s[k..k + |Trim(s)|]
  {
    var t := TrimStart(s);
    var r := TrimEnd(t);
    var k := |s| - |t|;
    assert t == s[k..] && r == t[..|r|];
    assert r == s[k..k + |r|];
  }

  lemma TrimDropsTrailingSpace(s: string)
    ensures var k := |s| - |TrimStart(s)|;
            forall i :: k + |Trim(s)| <= i < |s| ==> IsJsSpace(s[i])
  {
    var t := TrimStart(s);
    var r := TrimEnd(t);
    var k := |s| - |t|;
    assert Trim(s) == r && t == s[k..];
    TrimEndSpec(t);
    forall i | k + |r| <= i < |s|
      ensures IsJsSpace(s[i])
    {
      assert s[i] == t[i - k];
    }
  }

  lemma TrimEndsNonSpace(s: string)
    ensures Trim(s) == [] || (!IsJsSpace(Trim(s)[0]) && !IsJsSpace(Trim(s)[|Trim(s)| - 1]))
  {
    var t := TrimStart(s);
    var r := TrimEnd(t);
    TrimStartSpec(s);
    TrimEndSpec(t);
    if r != [] {
      assert r[0] == t[0];
    }
  }

  /** A string with no white space at either end is its own trim. */
  lemma TrimOfTrimmed(s: string)
    requires s == [] || (!IsJsSpace(s[0]) && !IsJsSpace(s[|s| - 1]))
    ensures Trim(s) == s
  {
  }

  /** Trimming twice is trimming once. */
  lemma TrimIdempotent(s: string)
    ensures Trim(Trim(s)) == Trim(s)
  {
    TrimSpec(s);
    TrimOfTrimmed(Trim(s));
  }

  /** A string is blank after trimming exactly when all of it is white space. */
  lemma {:induction false} TrimEmptyIffBlank(s: string)
    ensures Trim(s) == [] <==> forall i :: 0 <= i < |s| ==> IsJsSpace(s[i])
  {
    TrimSpec(s);
    if Trim(s) == [] {
      var k := |s| - |TrimStart(s)|;
      assert forall i :: 0 <= i < k ==> IsJsSpace(s[i]);
      assert forall i :: k <= i < |s| ==> IsJsSpace(s[i]);
    } else {
      var k := |s| - |TrimStart(s)|;
      assert s[k] == Trim(s)[0];
    }
  }

  // ---------------------------------------------------------------------------
  // Arithmetic

  /** `Math.ceil(a / b)` for a positive divisor: the least integer `r` with
      `a <= r * b`. */
  function CeilDiv(a: int, b: int): (r: int)
    requires b > 0
    ensures (r - 1) * b < a <= r * b
  {
    var q := (-a) / b;
    var m := (-a) % b;
    assert -a == q * b + m && 0 <= m < b;
    assert -q * b == a + m;
    assert (-q - 1) * b == a + m - b;
    -q
  }

  // ---------------------------------------------------------------------------
  // Money, in integer paise

  /** The flat shipping charge of 99 rupees. */
  const ShippingPaise: int := 9900

  /** 18% GST of an amount in paise, rounded to the nearest paisa (halves up). */
  function Gst(amount: int): (r: int)
    ensures 100 * r <= 18 * amount + 50 < 100 * r + 100
    ensures amount >= 0 ==> r >= 0
  {
    (18 * amount + 50) / 100
  }

  /** `Math.max(0, x)`. */
  function NonNeg(x: int): (r: nat)
    ensures r >= x && (x >= 0 ==> r == x) && (x < 0 ==> r == 0)
  {
    if x > 0 then x else 0
  }
}
