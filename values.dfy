/**
 * JavaScript values as the trip dashboard keeps them in its store and its
 * forms, together with the handful of list and string operations (filter,
 * index-wise replace and remove, trim, lower-case, includes, join, set-based
 * de-duplication) that the store and the pages build on.
 *
 * A JavaScript object is a `Record`: a finite map from property names to
 * values, so the spread `{...a, ...b}` is the map union `a + b`, in which the
 * right operand wins.  Numbers are integers (amounts in cents, dates as day
 * numbers); `NaN` stands for the result of a failed `parseFloat`.
 */
module Values {

  datatype Option<+T> = None | Some(value: T)

  datatype Value =
    | Undefined
    | Null
    | Bool(b: bool)
    | Num(n: int)
    | NaN
    | Str(s: string)
    | Arr(items: seq<Value>)
    | Obj(fields: map<string, Value>)

  type Record = map<string, Value>

  /** Property access `r.key`: a missing property reads as `undefined`. */
  function Get(r: Record, key: string): Value
  {
    if key in r then r[key] else Undefined
  }

  /** The JavaScript truthiness test used by `if (v)`, `v || d` and `v ? a : b`. */
  predicate Truthy(v: Value)
  {
    match v
    case Undefined => false
    case Null => false
    case Bool(b) => b
    case Num(n) => n != 0
    case NaN => false
    case Str(s) => s != ""
    case Arr(_) => true
    case Obj(_) => true
  }

  /**
   * Strict equality `a === b`.  NaN is unequal to everything, itself
   * included; arrays and objects compare by reference, which values do not
   * have, so two of them never compare equal here.
   */
  predicate StrictEquals(a: Value, b: Value)
  {
    a == b && !a.NaN? && !a.Arr? && !a.Obj?
  }

  /** `amount || 0` for an amount that a form produced with `parseFloat`. */
  function OrZero(v: Value): (n: int)
    ensures !Truthy(v) ==> n == 0
    ensures v.Num? ==> n == v.n
  {
    if v.Num? then v.n else 0
  }

  /**
   * Numeric coercion as `+` applies it to the values the forms produce. A
   * text operand is not modelled: it gives `NaN` here, where `+` would
   * concatenate.
   */
  function ToNumber(v: Value): Value
  {
    match v
    case Num(n) => Num(n)
    case Null => Num(0)
    case Bool(b) => Num(if b then 1 else 0)
    case _ => NaN
  }

  /** `a + b` on the values the forms produce: NaN as soon as either side does not coerce to a number. */
  function Plus(a: Value, b: Value): (r: Value)
    ensures r.Num? || r.NaN?
    ensures r.Num? <==> ToNumber(a).Num? && ToNumber(b).Num?
  {
    var x, y := ToNumber(a), ToNumber(b);
    if x.Num? && y.Num? then Num(x.n + y.n) else NaN
  }

  /**
   * A progress percentage, `total > 0 ? completed / total * 100 : 0`, as an
   * exact fraction (progress bars, the completion rate, `ProgressCard`).
   */
  function Percent(completed: nat, total: nat): (r: real)
    ensures total == 0 ==> r == 0.0
    ensures completed <= total ==> 0.0 <= r <= 100.0
    ensures 0 < total && completed == total ==> r == 100.0
  {
    if total > 0 then (completed as real / total as real) * 100.0 else 0.0
  }

  // ---------------------------------------------------------------------
  // Lists

  /** `s.filter(p)`: the elements of `s` that pass `p`, in their order. */
  function Filter<T(!new)>(s: seq<T>, p: T -> bool): (r: seq<T>)
    ensures |r| <= |s|
    ensures forall x :: x in r <==> x in s && p(x)
  {
    if s == [] then []
    else (if p(s[0]) then [s[0]] else []) + Filter(s[1..], p)
  }

  lemma {:induction false} FilterConcat<T(!new)>(s: seq<T>, t: seq<T>, p: T -> bool)
    ensures Filter(s + t, p) == Filter(s, p) + Filter(t, p)
  {
    if s == [] {
      assert s + t == t;
    } else {
      assert (s + t)[1..] == s[1..] + t;
      FilterConcat(s[1..], t, p);
    }
  }

  /** Filtering one more element at the end. */
  lemma FilterSnoc<T(!new)>(s: seq<T>, x: T, p: T -> bool)
    ensures Filter(s + [x], p) == Filter(s, p) + (if p(x) then [x] else [])
  {
    FilterConcat(s, [x], p);
    assert Filter([x], p) == (if p(x) then [x] else []) + Filter([x][1..], p);
  }

  /** Filtering by a conjunction is filtering twice. */
  lemma {:induction false} FilterFilter<T(!new)>(s: seq<T>, p: T -> bool, q: T -> bool, pq: T -> bool)
    requires forall x :: pq(x) == (p(x) && q(x))
    ensures Filter(s, pq) == Filter(Filter(s, p), q)
  {
    if s != [] {
      FilterFilter(s[1..], p, q, pq);
      FilterConcat(if p(s[0]) then [s[0]] else [], Filter(s[1..], p), q);
      if p(s[0]) {
        assert Filter([s[0]], q) == (if q(s[0]) then [s[0]] else []) + Filter([s[0]][1..], q);
      }
    }
  }

  /** A filter that every element passes keeps the whole list. */
  lemma {:induction false} FilterKeepsAll<T(!new)>(s: seq<T>, p: T -> bool)
    requires forall i | 0 <= i < |s| :: p(s[i])
    ensures Filter(s, p) == s
  {
    if s != [] {
      FilterKeepsAll(s[1..], p);
    }
  }

  /** A filter that no element passes keeps nothing. */
  lemma {:induction false} FilterKeepsNone<T(!new)>(s: seq<T>, p: T -> bool)
    requires forall i | 0 <= i < |s| :: !p(s[i])
    ensures Filter(s, p) == []
  {
    if s != [] {
      FilterKeepsNone(s[1..], p);
    }
  }

  /** Filtering twice with the same test is filtering once. */
  lemma FilterIdempotent<T(!new)>(s: seq<T>, p: T -> bool)
    ensures Filter(Filter(s, p), p) == Filter(s, p)
  {
    var f := Filter(s, p);
    forall i | 0 <= i < |f| ensures p(f[i]) {
      assert f[i] in f;
    }
    FilterKeepsAll(f, p);
  }

  /** The filter result is an order-preserving selection: its length plus the rejected ones' is the whole. */
  lemma {:induction false} FilterSplits<T(!new)>(s: seq<T>, p: T -> bool)
    ensures |Filter(s, p)| + |Filter(s, x => !p(x))| == |s|
  {
    if s != [] {
      FilterSplits(s[1..], p);
    }
  }

  /** `s.map((x, j) => j === i ? v : x)`: replace the element at index `i`, if there is one. */
  function ReplaceAt<T>(s: seq<T>, i: int, v: T): (r: seq<T>)
    ensures 0 <= i < |s| ==> r == s[i := v]
    ensures !(0 <= i < |s|) ==> r == s
  {
    seq(|s|, j requires 0 <= j < |s| => if j == i then v else s[j])
  }

  /** `s.filter((_, j) => j !== i)`: drop the element at index `i`, if there is one. */
  function RemoveAt<T>(s: seq<T>, i: int): (r: seq<T>)
    ensures 0 <= i < |s| ==> r == s[..i] + s[i + 1..]
    ensures !(0 <= i < |s|) ==> r == s
  {
    if s == [] then []
    else if i == 0 then s[1..]
    else
      var rest := RemoveAt(s[1..], i - 1);
      assert 0 < i < |s| ==> [s[0]] + s[1..][..i - 1] == s[..i] && s[1..][i..] == s[i + 1..];
      [s[0]] + rest
  }

  /** `Array.from(new Set(s))`: each value once, in order of first occurrence. */
  function Dedup<T(==,!new)>(s: seq<T>): (r: seq<T>)
    ensures forall x :: x in r <==> x in s
    ensures forall i, j | 0 <= i < j < |r| :: r[i] != r[j]
  {
    if s == [] then []
    else
      var d := Dedup(s[..|s| - 1]);
      assert forall x :: x in s <==> x in s[..|s| - 1] || x == s[|s| - 1];
      if s[|s| - 1] in d then d else d + [s[|s| - 1]]
  }

  /** One more value at the end is kept exactly when it was not seen before. */
  lemma DedupSnoc<T(!new)>(s: seq<T>, x: T)
    ensures Dedup(s + [x]) == if x in Dedup(s) then Dedup(s) else Dedup(s) + [x]
  {
    assert (s + [x])[..|s + [x]| - 1] == s;
  }

  // ---------------------------------------------------------------------
  // Strings

  /** The characters `String.prototype.trim` removes: white space and line terminators. */
  predicate IsSpace(c: char)
  {
    c == ' ' || c == '\t' || c == '\n' || c == '\r' || c == '\U{000B}' || c == '\U{000C}'
    || c == '\U{00A0}' || c == '\U{FEFF}' || c == '\U{1680}' || ('\U{2000}' <= c <= '\U{200A}')
    || c == '\U{2028}' || c == '\U{2029}' || c == '\U{202F}' || c == '\U{205F}' || c == '\U{3000}'
  }

  function TrimStart(s: string): string
  {
    if s != [] && IsSpace(s[0]) then TrimStart(s[1..]) else s
  }

  function TrimEnd(s: string): string
  {
    if s != [] && IsSpace(s[|s| - 1]) then TrimEnd(s[..|s| - 1]) else s
  }

  /** `s.trim()` */
  function Trim(s: string): string
  {
    TrimEnd(TrimStart(s))
  }

  /** A string that is empty once trimmed: the test behind `!s.trim()`. */
  predicate Blank(s: string)
  {
    forall i | 0 <= i < |s| :: IsSpace(s[i])
  }

  lemma {:induction false} TrimStartBlank(s: string)
    ensures TrimStart(s) == "" <==> Blank(s)
    ensures TrimStart(s) != "" ==> !IsSpace(TrimStart(s)[0])
  {
    if s != [] && IsSpace(s[0]) {
      TrimStartBlank(s[1..]);
      assert Blank(s) <==> Blank(s[1..]) by {
        if Blank(s[1..]) {
          forall i | 0 <= i < |s| ensures IsSpace(s[i]) {
            if i > 0 { assert s[i] == s[1..][i - 1]; }
          }
        }
      }
    }
  }

  lemma {:induction false} TrimEndKeepsFirst(s: string)
    requires s != [] && !IsSpace(s[0])
    ensures TrimEnd(s) != [] && TrimEnd(s)[0] == s[0]
  {
    if IsSpace(s[|s| - 1]) {
      TrimEndKeepsFirst(s[..|s| - 1]);
    }
  }

  /** `s.trim()` is empty exactly when every character of `s` is white space. */
  lemma TrimEmptyIffBlank(s: string)
    ensures Trim(s) == "" <==> Blank(s)
  {
    TrimStartBlank(s);
    if TrimStart(s) != "" {
      TrimEndKeepsFirst(TrimStart(s));
    }
  }

  /** `s.trim()` is non-empty: the test behind `if (s.trim())` and `filter(s => s.trim())`. */
  predicate Filled(s: string)
  {
    Trim(s) != ""
  }

  lemma FilledIffNotBlank(s: string)
    ensures Filled(s) <==> !Blank(s)
  {
    TrimEmptyIffBlank(s);
  }

  /** `c.toLowerCase()` for the ASCII letters. */
  function LowerChar(c: char): char
  {
    if 'A' <= c <= 'Z' then (c as int + 32) as char else c
  }

  /** `s.toLowerCase()` */
  function Lower(s: string): (r: string)
    ensures |r| == |s|
    ensures forall i | 0 <= i < |s| :: r[i] == LowerChar(s[i])
  {
    if s == [] then [] else [LowerChar(s[0])] + Lower(s[1..])
  }

  /** `s.includes(t)` */
  predicate Includes(s: string, t: string)
  {
    t <= s || (s != [] && Includes(s[1..], t))
  }

  lemma {:induction false} IncludesAt(s: string, t: string, i: nat)
    requires i + |t| <= |s| && s[i..i + |t|] == t
    ensures Includes(s, t)
  {
    if i > 0 {
      assert s[1..][i - 1..i - 1 + |t|] == s[i..i + |t|];
      IncludesAt(s[1..], t, i - 1);
    }
  }

  /** The lowercase of a string is the string of its lowercased characters. */
  lemma LowerOf(s: string, t: string)
    requires |s| == |t| && forall i | 0 <= i < |s| :: LowerChar(s[i]) == t[i]
    ensures Lower(s) == t
  {
  }

  /** Lowercasing twice is lowercasing once. */
  lemma LowerIdempotent(s: string)
    ensures Lower(Lower(s)) == Lower(s)
  {
  }

  /** Lowercasing keeps prefixes. */
  lemma {:induction false} LowerPrefix(t: string, s: string)
    requires t <= s
    ensures Lower(t) <= Lower(s)
  {
    assert forall i | 0 <= i < |t| :: Lower(t)[i] == LowerChar(t[i]) == LowerChar(s[i]) == Lower(s)[i];
  }

  /** Whatever a string contains, its lowercase contains in lowercase. */
  lemma {:induction false} IncludesLower(s: string, t: string)
    requires Includes(s, t)
    ensures Includes(Lower(s), Lower(t))
  {
    if t <= s {
      LowerPrefix(t, s);
    } else {
      IncludesLower(s[1..], t);
      assert Lower(s)[1..] == Lower(s[1..]);
    }
  }

  /** The empty search term is found in every string. */
  lemma IncludesEmpty(s: string)
    ensures Includes(s, "")
  {
  }

  /** `parts.join(sep)` */
  function Join(parts: seq<string>, sep: string): string
  {
    if |parts| == 0 then ""
    else if |parts| == 1 then parts[0]
    else parts[0] + sep + Join(parts[1..], sep)
  }

  function TotalLength(parts: seq<string>): nat
  {
    if parts == [] then 0 else |parts[0]| + TotalLength(parts[1..])
  }

  /** Joining n parts inserts exactly n - 1 separators. */
  lemma {:induction false} JoinLength(parts: seq<string>, sep: string)
    requires |parts| > 0
    ensures |Join(parts, sep)| == TotalLength(parts) + (|parts| - 1) * |sep|
  {
    if |parts| > 1 {
      JoinLength(parts[1..], sep);
    }
  }

  /** A join is empty exactly when there is at most one part and every part is empty. */
  lemma {:induction false} JoinEmpty(parts: seq<string>, sep: string)
    requires sep != ""
    ensures Join(parts, sep) == "" <==> |parts| <= 1 && forall i | 0 <= i < |parts| :: parts[i] == ""
  {
    if |parts| > 1 {
      assert |Join(parts, sep)| >= |sep|;
    }
  }

  // ---------------------------------------------------------------------
  // Arrays of strings

  /** A list of strings as a stored array value. */
  function EncodeStrings(strings: seq<string>): (r: seq<Value>)
    ensures |r| == |strings|
  {
    if strings == [] then [] else [Str(strings[0])] + EncodeStrings(strings[1..])
  }

  /** The strings a stored array holds; `None` when an item is not a string. */
  function DecodeStrings(vs: seq<Value>): Option<seq<string>>
  {
    if vs == [] then Some([])
    else if !vs[0].Str? then None
    else
      var rest := DecodeStrings(vs[1..]);
      if rest.None? then None else Some([vs[0].s] + rest.value)
  }

  /** Decoding a stored string array gives back the strings that were stored. */
  lemma {:induction false} StringsRoundTrip(strings: seq<string>)
    ensures DecodeStrings(EncodeStrings(strings)) == Some(strings)
  {
    if strings != [] {
      assert EncodeStrings(strings)[1..] == EncodeStrings(strings[1..]);
      StringsRoundTrip(strings[1..]);
      assert strings == [strings[0]] + strings[1..];
    }
  }
}
