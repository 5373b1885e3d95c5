/** JavaScript values and the few built-in string operations the dashboard relies on:
    truthiness, property access, `String(x)`, `Array.prototype.join`,
    `String.prototype.split` on one character, `includes` and `trim`. */
module JsValues {

  datatype Option<T> = None | Some(value: T)

  /** A JavaScript value as `JSON.parse` produces it, plus `undefined` for a missing
      property. Numbers are integers here (fractions and NaN are not modelled). */
  datatype Value =
    | Undefined
    | Null
    | Bool(b: bool)
    | Num(n: int)
    | Str(s: string)
    | Arr(items: seq<Value>)
    | Obj(fields: map<string, Value>)

  /** `v.key`: a missing property, or a property of a non-object, reads as `undefined`. */
  function Get(v: Value, key: string): Value
  {
    if v.Obj? && key in v.fields then v.fields[key] else Undefined
  }

  /** JavaScript truthiness (`!!v`). */
  predicate Truthy(v: Value)
  {
    match v
    case Undefined => false
    case Null => false
    case Bool(b) => b
    case Num(n) => n != 0
    case Str(s) => s != ""
    case Arr(_) => true
    case Obj(_) => true
  }

  /** Values that `Set.prototype.has` compares by value; parsed arrays and objects
      are compared by identity, so two of them never match. */
  predicate IsPrimitive(v: Value)
  {
    !v.Arr? && !v.Obj?
  }

  function DigitChar(d: nat): char
    requires d < 10
  {
    "0123456789"[d]
  }

  function NatToString(n: nat): (r: string)
    ensures r != ""
    ensures forall i :: 0 <= i < |r| ==> '0' <= r[i] <= '9'
  {
    if n < 10 then [DigitChar(n)] else NatToString(n / 10) + [DigitChar(n % 10)]
  }

  function IntToString(i: int): string
  {
    if i < 0 then "-" + NatToString(-i) else NatToString(i)
  }

  /** `String(v)`; an array converts as its elements joined with ",". */
  function ToStr(v: Value): string
    decreases v, if v.Arr? then |v.items| + 1 else 0
  {
    match v
    case Undefined => "undefined"
    case Null => "null"
    case Bool(b) => if b then "true" else "false"
    case Num(n) => IntToString(n)
    case Str(s) => s
    case Arr(items) => ItemsToStr(v, 0, ",")
    case Obj(_) => "[object Object]"
  }

  /** `Array.prototype.join(sep)` on the elements `a.items[i..]`. */
  function ItemsToStr(a: Value, i: nat, sep: string): string
    requires a.Arr? && i <= |a.items|
    decreases a, |a.items| - i
  {
    if i == |a.items| then ""
    else
      var head := JoinPiece(a.items[i]);
      if i + 1 == |a.items| then head else head + sep + ItemsToStr(a, i + 1, sep)
  }

  /** How `join` renders one element: `null` and `undefined` become "". */
  function JoinPiece(v: Value): string
    decreases v, if v.Arr? then |v.items| + 2 else 1
  {
    if v.Undefined? || v.Null? then "" else ToStr(v)
  }

  /** `xs.join(sep)` on strings. */
  function Join(xs: seq<string>, sep: string): string
  {
    if |xs| == 0 then ""
    else if |xs| == 1 then xs[0]
    else xs[0] + sep + Join(xs[1..], sep)
  }

  /** The pieces `join` renders for the elements `a.items[i..]`. */
  function JoinPieces(a: Value, i: nat): (r: seq<string>)
    requires a.Arr? && i <= |a.items|
    ensures |r| == |a.items| - i
    ensures forall k :: 0 <= k < |r| ==> r[k] == JoinPiece(a.items[i + k])
  {
    seq(|a.items| - i, k requires 0 <= k < |a.items| - i => JoinPiece(a.items[i + k]))
  }

  /** The two forms of `join` agree: joining an array's elements is joining the
      strings they render as. */
  lemma {:induction false} ItemsToStrJoin(a: Value, i: nat, sep: string)
    requires a.Arr? && i <= |a.items|
    ensures ItemsToStr(a, i, sep) == Join(JoinPieces(a, i), sep)
    decreases |a.items| - i
  {
    var ps := JoinPieces(a, i);
    if i < |a.items| && i + 1 < |a.items| {
      ItemsToStrJoin(a, i + 1, sep);
      assert ps[1..] == JoinPieces(a, i + 1);
    }
  }

  /** `s.split(c)` for a one-character separator. */
  function Split(s: string, c: char): (r: seq<string>)
    ensures |r| >= 1
  {
    if s == [] then [""]
    else
      var rest := Split(s[1..], c);
      if s[0] == c then [""] + rest else [[s[0]] + rest[0]] + rest[1..]
  }

  /** Splitting on `c` and joining with `c` gives back the text. */
  lemma {:induction false} SplitJoin(s: string, c: char)
    ensures Join(Split(s, c), [c]) == s
  {
    if s != [] {
      var rest := Split(s[1..], c);
      SplitJoin(s[1..], c);
      assert s == [s[0]] + s[1..];
      if s[0] == c {
        assert Split(s, c) == [""] + rest;
        assert ([""] + rest)[1..] == rest;
      } else {
        var first := [s[0]] + rest[0];
        assert Split(s, c) == [first] + rest[1..];
        if |rest| == 1 {
          assert Join(rest, [c]) == rest[0];
        } else {
          assert Join(rest, [c]) == rest[0] + [c] + Join(rest[1..], [c]);
          assert ([first] + rest[1..])[1..] == rest[1..];
        }
      }
    }
  }

  /** No piece of `split(c)` holds `c`. */
  lemma {:induction false} SplitPiecesFree(s: string, c: char)
    ensures forall i :: 0 <= i < |Split(s, c)| ==> c !in Split(s, c)[i]
  {
    if s != [] {
      var rest := Split(s[1..], c);
      SplitPiecesFree(s[1..], c);
      var r := Split(s, c);
      forall i | 0 <= i < |r|
        ensures c !in r[i]
      {
        if s[0] == c {
          if i > 0 {
            assert r[i] == rest[i - 1];
          }
        } else if i > 0 {
          assert r[i] == rest[i];
        } else {
          assert r[0] == [s[0]] + rest[0];
        }
      }
    }
  }

  /** `p` occurs in `s` at index `i`. */
  predicate StartsWithAt(s: string, i: nat, p: string)
  {
    i + |p| <= |s| && s[i..i + |p|] == p
  }

  /** `haystack.includes(needle)`. */
  predicate Contains(haystack: string, needle: string)
    decreases |haystack|
  {
    |needle| <= |haystack| && (haystack[..|needle|] == needle || Contains(haystack[1..], needle))
  }

  lemma {:induction false} ContainsAt(h: string, n: string, i: nat)
    requires i + |n| <= |h| && h[i..i + |n|] == n
    ensures Contains(h, n)
    decreases i
  {
    if i > 0 {
      assert h[1..][i - 1..i - 1 + |n|] == h[i..i + |n|];
      ContainsAt(h[1..], n, i - 1);
    }
  }

  /** Conversely, `includes` holds only when the needle occurs at some index. */
  lemma {:induction false} ContainsWhere(h: string, n: string) returns (i: nat)
    requires Contains(h, n)
    ensures StartsWithAt(h, i, n)
    decreases |h|
  {
    if h[..|n|] == n {
      i := 0;
    } else {
      var j := ContainsWhere(h[1..], n);
      assert h[1..][j..j + |n|] == h[j + 1..j + 1 + |n|];
      i := j + 1;
    }
  }

  /** Characters `String.prototype.trim` removes and `\s` matches: the WhiteSpace
      and LineTerminator code points of ECMAScript. */
  predicate IsSpace(c: char)
  {
    c == '\t' || c == '\n' || c == '\U{000B}' || c == '\U{000C}' || c == '\r' || c == ' '
    || c == '\U{00A0}' || c == '\U{1680}' || ('\U{2000}' <= c <= '\U{200A}')
    || c == '\U{2028}' || c == '\U{2029}' || c == '\U{202F}' || c == '\U{205F}'
    || c == '\U{3000}' || c == '\U{FEFF}'
  }

  predicate AllSpace(s: string)
  {
    forall i :: 0 <= i < |s| ==> IsSpace(s[i])
  }

  /** Length of the longest all-whitespace prefix. */
  function LeadingSpaces(s: string): (n: nat)
    ensures n <= |s| && AllSpace(s[..n])
    ensures n < |s| ==> !IsSpace(s[n])
  {
    if s != [] && IsSpace(s[0]) then 1 + LeadingSpaces(s[1..]) else 0
  }

  /** Length of the longest all-whitespace suffix. */
  function TrailingSpaces(s: string): (n: nat)
    ensures n <= |s| && AllSpace(s[|s| - n..])
    ensures n < |s| ==> !IsSpace(s[|s| - n - 1])
  {
    if s != [] && IsSpace(s[|s| - 1]) then 1 + TrailingSpaces(s[..|s| - 1]) else 0
  }

  function TrimStart(s: string): string
  {
    s[LeadingSpaces(s)..]
  }

  function TrimEnd(s: string): string
  {
    s[..|s| - TrailingSpaces(s)]
  }

  /** `s.trim()`. */
  function Trim(s: string): (r: string)
  {
    TrimStart(TrimEnd(s))
  }

  lemma {:induction false} LeadingSpacesAll(s: string)
    ensures LeadingSpaces(s) == |s| <==> AllSpace(s)
  {
    if s != [] && IsSpace(s[0]) {
      LeadingSpacesAll(s[1..]);
      assert AllSpace(s) <==> AllSpace(s[1..]) by {
        if AllSpace(s[1..]) {
          forall i | 0 <= i < |s| ensures IsSpace(s[i]) {
            if i > 0 { assert s[i] == s[1..][i - 1]; }
          }
        }
      }
    }
  }

  /** The trimmed text is empty exactly for all-whitespace input. */
  lemma TrimEmpty(s: string)
    ensures Trim(s) == "" <==> AllSpace(s)
  {
    var e := TrimEnd(s);
    var k := TrailingSpaces(s);
    LeadingSpacesAll(e);
    if !AllSpace(s) {
      assert s == e + s[|s| - k..];
      var i :| 0 <= i < |s| && !IsSpace(s[i]);
      assert i < |e| && e[i] == s[i];
    }
  }

  /** A non-empty trimmed text starts and ends with a non-whitespace character. */
  lemma TrimEdges(s: string)
    requires Trim(s) != ""
    ensures !IsSpace(Trim(s)[0]) && !IsSpace(Trim(s)[|Trim(s)| - 1])
  {
    var e := TrimEnd(s);
    var k := TrailingSpaces(s);
    assert e[|e| - 1] == s[|s| - k - 1];
  }

  /** Trimming twice is trimming once. */
  lemma TrimIdempotent(s: string)
    ensures Trim(Trim(s)) == Trim(s)
  {
    var t := Trim(s);
    if t == "" {
    } else {
      TrimEdges(s);
      assert TrailingSpaces(t) == 0;
      assert TrimEnd(t) == t;
      assert LeadingSpaces(t) == 0;
    }
  }

  /** Leading whitespace of a string that does not start with whitespace is nothing. */
  lemma TrimStartNonSpace(s: string)
    requires s != [] && !IsSpace(s[0])
    ensures TrimStart(s) == s
  {
  }

  /** A non-blank tail decides where `trimEnd` stops. */
  lemma {:induction false} TrailingSpacesConcat(p: string, m: string)
    requires !AllSpace(m)
    ensures TrailingSpaces(p + m) == TrailingSpaces(m)
    decreases |m|
  {
    var pm := p + m;
    assert m != [];
    if IsSpace(m[|m| - 1]) {
      assert pm[|pm| - 1] == m[|m| - 1];
      assert pm[..|pm| - 1] == p + m[..|m| - 1];
      assert !AllSpace(m[..|m| - 1]) by {
        var i :| 0 <= i < |m| && !IsSpace(m[i]);
        assert i < |m| - 1;
        assert m[..|m| - 1][i] == m[i];
      }
      TrailingSpacesConcat(p, m[..|m| - 1]);
    } else {
      assert pm[|pm| - 1] == m[|m| - 1];
    }
  }

  lemma TrimEndConcat(p: string, m: string)
    requires !AllSpace(m)
    ensures TrimEnd(p + m) == p + TrimEnd(m)
  {
    TrailingSpacesConcat(p, m);
    assert (p + m)[..|p + m| - TrailingSpaces(m)] == p + m[..|m| - TrailingSpaces(m)];
  }
}
