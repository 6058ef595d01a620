/** The Python values the upload code inspects, and the few builtins it applies to them:
    truthiness, `dict.get`, `str()`, `str.strip`, `str.replace`, `str.join`, `str.split`
    and `os.path.basename`. Decoded response bodies are `Json` values; response decoding
    itself happens outside the model. */
module PyValues {
  import opened Results

  /** A byte of a file or of an encoded string. */
  type Byte = b: int | 0 <= b < 256

  /** A decoded JSON value. Numbers are integers; an object keeps its key order as an
      association list. */
  datatype Json =
    | JNull
    | JBool(b: bool)
    | JNum(n: int)
    | JStr(s: string)
    | JArr(items: seq<Json>)
    | JObj(fields: seq<(string, Json)>)

  /** Python truthiness: None, False, 0, "", [] and {} are falsy, everything else is truthy. */
  predicate Truthy(j: Json) {
    match j
    case JNull => false
    case JBool(b) => b
    case JNum(n) => n != 0
    case JStr(s) => s != ""
    case JArr(xs) => xs != []
    case JObj(fs) => fs != []
  }

  /** Truthiness of a value that may be missing (a missing value is None, which is falsy). */
  predicate TruthyOpt(o: Option<Json>) {
    o.Some? && Truthy(o.value)
  }

  /** `d.get(k)` on a dict: the value stored under k, or None. When a key occurs twice, as
      after decoding `{"a": 1, "a": 2}`, the later value is the one the dict holds. */
  function Lookup(fields: seq<(string, Json)>, k: string): (r: Option<Json>)
    ensures r.Some? <==> exists i :: 0 <= i < |fields| && fields[i].0 == k
    ensures r.Some? ==> exists i :: 0 <= i < |fields| && fields[i] == (k, r.value) &&
                                    forall j :: i < j < |fields| ==> fields[j].0 != k
  {
    if fields == [] then None
    else if fields[|fields| - 1].0 == k then Some(fields[|fields| - 1].1)
    else
      var r := Lookup(fields[..|fields| - 1], k);
      assert forall i :: 0 <= i < |fields| - 1 ==> fields[..|fields| - 1][i] == fields[i];
      r
  }

  /** The name Python prints for the type of a decoded JSON value. */
  function TypeName(j: Json): string {
    match j
    case JNull => "NoneType"
    case JBool(_) => "bool"
    case JNum(_) => "int"
    case JStr(_) => "str"
    case JArr(_) => "list"
    case JObj(_) => "dict"
  }

  /** The text of the AttributeError raised by calling `.get` on a value that is not a dict. */
  function NoGetMessage(j: Json): string {
    "'" + TypeName(j) + "' object has no attribute 'get'"
  }

  /** `v.get(k)`: a dict answers with its entry for k; any other value raises AttributeError. */
  function Get(v: Json, k: string): (r: Result<Option<Json>>)
    ensures r.Ok? <==> v.JObj?
    ensures r.Ok? ==> r.value == Lookup(v.fields, k)
    ensures r.Err? ==> r.msg == NoGetMessage(v)
  {
    if v.JObj? then Ok(Lookup(v.fields, k)) else Err(NoGetMessage(v))
  }

  // ---------------------------------------------------------------------------------------
  // str() of integers and of JSON values

  function DigitChar(d: nat): (c: char)
    requires d < 10
  {
    "0123456789"[d]
  }

  /** Decimal digits of a natural number, most significant first, with no leading zero. */
  function NatToString(n: nat): (s: string)
    ensures |s| >= 1
    ensures forall i :: 0 <= i < |s| ==> '0' <= s[i] <= '9'
    ensures |s| > 1 ==> s[0] != '0'
  {
    if n < 10 then [DigitChar(n)] else NatToString(n / 10) + [DigitChar(n % 10)]
  }

  /** `str(n)` for a Python int. */
  function IntToString(n: int): string {
    if n < 0 then "-" + NatToString(-n) else NatToString(n)
  }

  /** The number a string of decimal digits denotes. */
  function DecimalValue(s: string): nat
    requires forall i :: 0 <= i < |s| ==> '0' <= s[i] <= '9'
  {
    if s == [] then 0
    else DecimalValue(s[..|s| - 1]) * 10 + (s[|s| - 1] as int - '0' as int)
  }

  /** Reading back the digits of a natural number gives the number. */
  lemma {:induction false} NatToStringRoundTrip(n: nat)
    ensures DecimalValue(NatToString(n)) == n
  {
    if n >= 10 {
      NatToStringRoundTrip(n / 10);
      var s := NatToString(n / 10) + [DigitChar(n % 10)];
      assert s[..|s| - 1] == NatToString(n / 10);
    }
  }

  /** `repr()` of a decoded JSON value, as Python prints it inside a list or dict. Strings
      are put in single quotes without escaping their contents. */
  function Repr(j: Json): string
    decreases j
  {
    match j
    case JNull => "None"
    case JBool(b) => if b then "True" else "False"
    case JNum(n) => IntToString(n)
    case JStr(s) => "'" + s + "'"
    case JArr(xs) =>
      "[" + Join(seq(|xs|, i requires 0 <= i < |xs| => Repr(xs[i])), ", ") + "]"
    case JObj(fs) =>
      "{" + Join(seq(|fs|, i requires 0 <= i < |fs| => "'" + fs[i].0 + "': " + Repr(fs[i].1)), ", ") + "}"
  }

  /** `str()` of a decoded JSON value: a string is itself, anything else its repr. */
  function Str(j: Json): string {
    if j.JStr? then j.s else Repr(j)
  }

  /** `str()` of a value that may be missing. */
  function StrOpt(o: Option<Json>): string {
    if o.Some? then Str(o.value) else "None"
  }

  // ---------------------------------------------------------------------------------------
  // String builtins

  /** `sep.join(items)`. */
  function Join(items: seq<string>, sep: string): string {
    if items == [] then ""
    else if |items| == 1 then items[0]
    else Join(items[..|items| - 1], sep) + sep + items[|items| - 1]
  }

  /** Every item of a join occurs in the joined text, with the separator on each side
      unless it is the first or the last item. */
  lemma {:induction false} JoinHasItem(items: seq<string>, sep: string, k: nat)
    requires k < |items|
    ensures exists pre, post ::
      Join(items, sep) == pre + items[k] + post &&
      (k == 0 ==> pre == []) && (k > 0 ==> |pre| >= |sep| && pre[|pre| - |sep|..] == sep)
  {
    if |items| == 1 {
      assert Join(items, sep) == [] + items[k] + [];
    } else if k == |items| - 1 {
      var pre := Join(items[..|items| - 1], sep) + sep;
      assert pre[|pre| - |sep|..] == sep;
      assert Join(items, sep) == pre + items[k] + [] &&
        (k == 0 ==> pre == []) && (k > 0 ==> |pre| >= |sep| && pre[|pre| - |sep|..] == sep);
    } else {
      var front := items[..|items| - 1];
      JoinHasItem(front, sep, k);
      var pre, post :| Join(front, sep) == pre + front[k] + post &&
        (k == 0 ==> pre == []) && (k > 0 ==> |pre| >= |sep| && pre[|pre| - |sep|..] == sep);
      assert Join(items, sep) == pre + items[k] + (post + sep + items[|items| - 1]);
    }
  }

  /** The summed lengths of the items. */
  function TotalLength(items: seq<string>): nat {
    if items == [] then 0 else TotalLength(items[..|items| - 1]) + |items[|items| - 1]|
  }

  /** A join is as long as its items plus one separator between each two of them. */
  lemma {:induction false} JoinLength(items: seq<string>, sep: string)
    requires items != []
    ensures |Join(items, sep)| == TotalLength(items) + |sep| * (|items| - 1)
  {
    if |items| > 1 {
      JoinLength(items[..|items| - 1], sep);
    } else {
      assert items[..0] == [];
    }
  }

  /** Joining two non-empty runs of items is joining each and putting the separator between. */
  lemma {:induction false} JoinAppend(a: seq<string>, b: seq<string>, sep: string)
    requires a != [] && b != []
    ensures Join(a + b, sep) == Join(a, sep) + sep + Join(b, sep)
    decreases |b|
  {
    var ab := a + b;
    if |b| == 1 {
      assert ab[..|ab| - 1] == a;
    } else {
      var front := b[..|b| - 1];
      assert ab[..|ab| - 1] == a + front;
      JoinAppend(a, front, sep);
    }
  }

  /** A join of at least two items starts with the first item and a separator. */
  lemma JoinFirst(items: seq<string>, sep: string)
    requires |items| >= 2
    ensures Join(items, sep) == items[0] + sep + Join(items[1..], sep)
  {
    assert items == [items[0]] + items[1..];
    JoinAppend([items[0]], items[1..], sep);
  }

  /** Consecutive items stand next to each other in a join, with one separator between them:
      the k-th item starts the text or follows a separator, and the next one ends the text or
      is followed by a separator. */
  lemma JoinAdjacent(items: seq<string>, sep: string, k: nat) returns (pre: string, post: string)
    requires k + 1 < |items|
    ensures Join(items, sep) == pre + items[k] + sep + items[k + 1] + post
    ensures k == 0 ==> pre == []
    ensures k > 0 ==> |pre| >= |sep| && pre[|pre| - |sep|..] == sep
    ensures k + 2 == |items| ==> post == []
    ensures k + 2 < |items| ==> |post| >= |sep| && post[..|sep|] == sep
  {
    var a, b := items[..k + 1], items[k + 1..];
    assert items == a + b;
    JoinAppend(a, b, sep);
    pre := if k == 0 then [] else Join(items[..k], sep) + sep;
    post := if k + 2 == |items| then [] else sep + Join(items[k + 2..], sep);
    JoinAdjacentEnds(items, sep, k, pre, post);
  }

  /** The two halves of the split at item k, written as the item and its margin. */
  lemma JoinAdjacentEnds(items: seq<string>, sep: string, k: nat, pre: string, post: string)
    requires k + 1 < |items|
    requires pre == if k == 0 then [] else Join(items[..k], sep) + sep
    requires post == if k + 2 == |items| then [] else sep + Join(items[k + 2..], sep)
    ensures Join(items[..k + 1], sep) == pre + items[k]
    ensures Join(items[k + 1..], sep) == items[k + 1] + post
  {
    var a, b := items[..k + 1], items[k + 1..];
    if k > 0 {
      assert a[..|a| - 1] == items[..k];
    }
    if k + 2 < |items| {
      JoinFirst(b, sep);
      assert b[1..] == items[k + 2..];
    }
  }

  /** `s.replace(c, "")` for a single character c. */
  function RemoveChar(s: string, c: char): (r: string)
    ensures forall x :: x in r <==> x in s && x != c
    ensures |r| <= |s|
  {
    if s == [] then []
    else if s[0] == c then RemoveChar(s[1..], c)
    else [s[0]] + RemoveChar(s[1..], c)
  }

  /** Removing a character from a concatenation removes it from each part. */
  lemma {:induction false} RemoveCharAppend(a: string, b: string, c: char)
    ensures RemoveChar(a + b, c) == RemoveChar(a, c) + RemoveChar(b, c)
  {
    if a != [] {
      assert (a + b)[1..] == a[1..] + b;
      RemoveCharAppend(a[1..], b, c);
    } else {
      assert a + b == b;
    }
  }

  /** Removing a character that does not occur changes nothing. */
  lemma {:induction false} RemoveCharAbsent(s: string, c: char)
    requires c !in s
    ensures RemoveChar(s, c) == s
  {
    if s != [] {
      RemoveCharAbsent(s[1..], c);
      assert [s[0]] + s[1..] == s;
    }
  }

  /** The characters Python's `str.isspace` accepts, which `str.strip()` removes. */
  const WhiteSpace: set<char> := {
    '\t', '\n', '\U{0B}', '\U{0C}', '\r', '\U{1C}', '\U{1D}', '\U{1E}', '\U{1F}', ' ',
    '\U{85}', '\U{A0}', '\U{1680}', '\U{2000}', '\U{2001}', '\U{2002}', '\U{2003}',
    '\U{2004}', '\U{2005}', '\U{2006}', '\U{2007}', '\U{2008}', '\U{2009}', '\U{200A}',
    '\U{2028}', '\U{2029}', '\U{202F}', '\U{205F}', '\U{3000}'
  }

  /** `s.lstrip(cs)`: the suffix left after dropping the leading characters that are in cs. */
  function LStrip(s: string, cs: set<char>): (r: string)
    ensures |r| <= |s| && r == s[|s| - |r|..]
    ensures r == [] || r[0] !in cs
    ensures forall k :: 0 <= k < |s| - |r| ==> s[k] in cs
  {
    if s == [] || s[0] !in cs then s else LStrip(s[1..], cs)
  }

  /** `s.rstrip(cs)`: the prefix left after dropping the trailing characters that are in cs. */
  function RStrip(s: string, cs: set<char>): (r: string)
    ensures |r| <= |s| && r == s[..|r|]
    ensures r == [] || r[|r| - 1] !in cs
    ensures forall k :: |r| <= k < |s| ==> s[k] in cs
  {
    if s == [] || s[|s| - 1] !in cs then s else RStrip(s[..|s| - 1], cs)
  }

  /** `s.strip(cs)`: s with both margins of characters in cs removed. */
  function Strip(s: string, cs: set<char>): string {
    LStrip(RStrip(s, cs), cs)
  }

  /** r sits in s at offset i, and every character of s outside it is in cs. */
  predicate TrimmedAt(s: string, cs: set<char>, i: nat, r: string) {
    i + |r| <= |s| && s[i..i + |r|] == r &&
    (forall k :: 0 <= k < i ==> s[k] in cs) &&
    (forall k :: i + |r| <= k < |s| ==> s[k] in cs)
  }

  /** Where strip's result sits in s: a slice whose two margins consist of characters in cs
      and whose own ends are not in cs. */
  lemma StripOffset(s: string, cs: set<char>) returns (i: nat)
    ensures TrimmedAt(s, cs, i, Strip(s, cs))
    ensures var r := Strip(s, cs); r == [] || (r[0] !in cs && r[|r| - 1] !in cs)
  {
    var t := RStrip(s, cs);
    var r := LStrip(t, cs);
    i := |t| - |r|;
    assert s[i..i + |r|] == t[i..] == r;
    assert forall k :: 0 <= k < i ==> s[k] == t[k];
    if r != [] {
      assert r[|r| - 1] == t[|t| - 1];
    }
  }

  /** What strip leaves is a trimmed slice of s; it is empty exactly when every character of
      s is in cs. */
  lemma StripIsTrimmedSlice(s: string, cs: set<char>)
    ensures exists i: nat :: TrimmedAt(s, cs, i, Strip(s, cs))
    ensures var r := Strip(s, cs); r == [] || (r[0] !in cs && r[|r| - 1] !in cs)
    ensures Strip(s, cs) == [] <==> forall k :: 0 <= k < |s| ==> s[k] in cs
  {
    var i := StripOffset(s, cs);
  }

  /** A trimmed slice of a trimmed slice is a trimmed slice of the whole, for the union of
      the two margin sets. */
  lemma TrimmedAtCompose(s: string, a: set<char>, b: set<char>, t: string, r: string, i: nat, j: nat)
    requires TrimmedAt(s, a, i, t)
    requires TrimmedAt(t, b, j, r)
    ensures TrimmedAt(s, a + b, i + j, r)
  {
    assert t == s[i..i + |t|];
    assert t[j..j + |r|] == r;
    forall k | 0 <= k < |r|
      ensures s[i + j..i + j + |r|][k] == r[k]
    {
      assert s[i + j + k] == t[j + k];
    }
    assert s[i + j..i + j + |r|] == r;
    forall k | 0 <= k < i + j
      ensures s[k] in a + b
    {
      if k >= i {
        assert s[k] == t[k - i];
      }
    }
    forall k | i + j + |r| <= k < |s|
      ensures s[k] in a + b
    {
      if k < i + |t| {
        assert s[k] == t[k - i];
      }
    }
  }

  /** Stripping with a, then with b, leaves a slice whose margins lie in a + b and whose ends
      are not in b. */
  lemma StripTwice(s: string, a: set<char>, b: set<char>)
    ensures var r := Strip(Strip(s, a), b); r == [] || (r[0] !in b && r[|r| - 1] !in b)
    ensures exists i: nat :: TrimmedAt(s, a + b, i, Strip(Strip(s, a), b))
  {
    var t := Strip(s, a);
    var r := Strip(t, b);
    var i := StripOffset(s, a);
    var j := StripOffset(t, b);
    TrimmedAtCompose(s, a, b, t, r, i, j);
  }

  /** `os.path.basename(p)`: what follows the last '/', or all of p when it has none. */
  function Basename(p: string): (r: string)
    ensures '/' !in r
    ensures |r| <= |p| && r == p[|p| - |r|..]
    ensures |r| < |p| ==> p[|p| - |r| - 1] == '/'
  {
    if p == [] then []
    else if p[|p| - 1] == '/' then []
    else Basename(p[..|p| - 1]) + [p[|p| - 1]]
  }

  /** How many times c occurs in s. */
  function CountChar(s: string, c: char): nat {
    if s == [] then 0 else (if s[0] == c then 1 else 0) + CountChar(s[1..], c)
  }

  /** The ValueError texts of unpacking a split into two names (Python 3 before 3.13). */
  const NotEnoughValuesMessage: string := "not enough values to unpack (expected 2, got 1)"
  const TooManyValuesMessage: string := "too many values to unpack (expected 2)"

  /** `a, b = s.split(c)`: the two halves when s holds exactly one c, and otherwise the
      ValueError raised by unpacking the wrong number of parts. */
  function SplitPair(s: string, c: char): (r: Result<(string, string)>)
    ensures r.Ok? <==> CountChar(s, c) == 1
    ensures r.Ok? ==> r.value.0 + [c] + r.value.1 == s && c !in r.value.0 && c !in r.value.1
    ensures CountChar(s, c) == 0 ==> r == Err(NotEnoughValuesMessage)
    ensures CountChar(s, c) > 1 ==> r == Err(TooManyValuesMessage)
  {
    if CountChar(s, c) == 0 then Err(NotEnoughValuesMessage)
    else if CountChar(s, c) > 1 then Err(TooManyValuesMessage)
    else SplitAtOnly(s, c)
  }

  function SplitAtOnly(s: string, c: char): (r: Result<(string, string)>)
    requires CountChar(s, c) == 1
    ensures r.Ok? && r.value.0 + [c] + r.value.1 == s && c !in r.value.0 && c !in r.value.1
  {
    if s[0] == c then
      NoCountNoChar(s[1..], c);
      Ok(([], s[1..]))
    else
      var rest := SplitAtOnly(s[1..], c);
      Ok(([s[0]] + rest.value.0, rest.value.1))
  }

  lemma {:induction false} NoCountNoChar(s: string, c: char)
    requires CountChar(s, c) == 0
    ensures c !in s
  {
    if s != [] {
      NoCountNoChar(s[1..], c);
      assert s == [s[0]] + s[1..];
    }
  }
}
