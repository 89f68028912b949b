/** JSON values and in-place edits through JSON pointers (RFC 6901). */
module JsonPointer {
  import opened Prelude

  datatype Json =
    | Null
    | Bool(flag: bool)
    | Int(n: int)
    | Float(text: string)
    | Text(text: string)
    | Arr(items: seq<Json>)
    | Obj(fields: map<string, Json>)

  // ---- Reference tokens

  /** Every `~` starts one of the two escapes. */
  predicate ValidToken(t: string) {
    t == "" ||
    if t[0] == '~' then |t| >= 2 && t[1] in {'0', '1'} && ValidToken(t[2..]) else ValidToken(t[1..])
  }

  /** Every occurrence of a two-character pattern, from the left, replaced by one character. */
  function Replace(t: string, first: char, second: char, with: char): string {
    if t == "" then ""
    else if |t| >= 2 && t[0] == first && t[1] == second then [with] + Replace(t[2..], first, second, with)
    else [t[0]] + Replace(t[1..], first, second, with)
  }

  /** Section 4 of RFC 6901: first `~1` becomes `/`, then `~0` becomes `~`. */
  function TwoPass(t: string): string {
    Replace(Replace(t, '~', '1', '/'), '~', '0', '~')
  }

  lemma ReplaceKeeps(t: string, second: char, with: char)
    requires t != "" && t[0] != '~'
    ensures Replace(t, '~', second, with) == [t[0]] + Replace(t[1..], '~', second, with)
  {
  }

  lemma TwoPassStep(t: string)
    requires t != "" && ValidToken(t)
    ensures t[0] != '~' ==> TwoPass(t) == [t[0]] + TwoPass(t[1..])
    ensures t[0] == '~' ==> TwoPass(t) == (if t[1] == '0' then ['~'] else ['/']) + TwoPass(t[2..])
  {
    if t[0] != '~' {
      var first := Replace(t[1..], '~', '1', '/');
      assert Replace(t, '~', '1', '/') == [t[0]] + first;
      ReplaceKeeps([t[0]] + first, '0', '~');
      assert ([t[0]] + first)[1..] == first;
    } else {
      var rest := Replace(t[2..], '~', '1', '/');
      if t[1] == '0' {
        assert t[1..][0] == '0' && t[1..][1..] == t[2..];
        assert Replace(t[1..], '~', '1', '/') == ['0'] + rest;
        assert Replace(t, '~', '1', '/') == ['~'] + (['0'] + rest);
        var s := ['~'] + (['0'] + rest);
        assert s[2..] == rest;
      } else {
        assert Replace(t, '~', '1', '/') == ['/'] + rest;
        ReplaceKeeps(['/'] + rest, '0', '~');
        assert (['/'] + rest)[1..] == rest;
      }
    }
  }

  /** The single left-to-right pass agrees with the two-pass rule on valid tokens and rejects all others. */
  method DecodeToken(token: string) returns (r: Option<string>)
    ensures r == if ValidToken(token) then Some(TwoPass(token)) else None
  {
    var decoded := "";
    var i := 0;
    while i < |token|
      invariant i <= |token| && (ValidToken(token) <==> ValidToken(token[i..]))
      invariant ValidToken(token) ==> TwoPass(token) == decoded + TwoPass(token[i..])
    {
      ghost var rest := token[i..];
      if ValidToken(rest) {
        TwoPassStep(rest);
      }
      var character := token[i];
      i := i + 1;
      if character != '~' {
        assert rest[1..] == token[i..];
        decoded := decoded + [character];
      } else {
        if i < |token| && token[i] == '0' {
          decoded := decoded + ['~'];
        } else if i < |token| && token[i] == '1' {
          decoded := decoded + ['/'];
        } else {
          return None;
        }
        i := i + 1;
        assert rest[2..] == token[i..];
      }
    }
    assert token[i..] == "" && TwoPass("") == "" && decoded + "" == decoded;
    return Some(decoded);
  }

  function Split(s: string): (r: seq<string>)
    ensures r != []
  {
    if s == "" then [""]
    else
      var rest := Split(s[1..]);
      if s[0] == '/' then [""] + rest else [[s[0]] + rest[0]] + rest[1..]
  }

  predicate AllValid(tokens: seq<string>) {
    forall i :: 0 <= i < |tokens| ==> ValidToken(tokens[i])
  }

  function Decoded(tokens: seq<string>): (r: seq<string>)
    ensures |r| == |tokens|
  {
    seq(|tokens|, i requires 0 <= i < |tokens| => TwoPass(tokens[i]))
  }

  /** The decoded reference tokens of a pointer, if it is well formed. */
  function Tokens(pointer: string): Option<seq<string>> {
    if pointer == "" then Some([])
    else if pointer[0] != '/' || !AllValid(Split(pointer[1..])) then None
    else Some(Decoded(Split(pointer[1..])))
  }

  method ParsePointer(pointer: string) returns (r: Option<seq<string>>)
    ensures r == Tokens(pointer)
  {
    if pointer == "" {
      return Some([]);
    }
    if pointer[0] != '/' {
      return None;
    }
    var parts := Split(pointer[1..]);
    var tokens: seq<string> := [];
    for i := 0 to |parts|
      invariant |tokens| == i && AllValid(parts[..i]) && forall j :: 0 <= j < i ==> tokens[j] == TwoPass(parts[j])
    {
      var token := DecodeToken(parts[i]);
      if token.None? {
        return None;
      }
      tokens := tokens + [token.value];
    }
    assert tokens == Decoded(parts);
    return Some(tokens);
  }

  // ---- Array indices

  predicate IsDigit(c: char) {
    '0' <= c <= '9'
  }

  function Digits(s: string): nat
    requires forall i :: 0 <= i < |s| ==> IsDigit(s[i])
  {
    if s == "" then 0 else assert IsDigit(s[|s| - 1]); Digits(s[..|s| - 1]) * 10 + (s[|s| - 1] as int - '0' as int)
  }

  /** A decimal index without leading zeros that fits a 64-bit `usize`. */
  function Index(t: string): Option<nat> {
    if t == "" || (|t| > 1 && t[0] == '0') || !(forall i :: 0 <= i < |t| ==> IsDigit(t[i])) then None
    else if Digits(t) >= 0x1_0000_0000_0000_0000 then None
    else Some(Digits(t))
  }

  function Numeral(n: nat): string {
    if n < 10 then ['0' + n as char] else Numeral(n / 10) + ['0' + (n % 10) as char]
  }

  lemma LastDigit(n: nat, digit: nat)
    requires digit < 10
    ensures (n * 10 + digit) / 10 == n && (n * 10 + digit) % 10 == digit
  {
  }

  lemma {:induction false} NumeralOfDigits(t: string)
    requires t != "" && (|t| == 1 || t[0] != '0') && forall i :: 0 <= i < |t| ==> IsDigit(t[i])
    ensures Numeral(Digits(t)) == t
    ensures t[0] != '0' ==> Digits(t) > 0
    decreases |t|
  {
    var last := t[|t| - 1];
    if |t| > 1 {
      var prefix := t[..|t| - 1];
      NumeralOfDigits(prefix);
      LastDigit(Digits(prefix), last as int - '0' as int);
      assert t == prefix + [last];
    } else {
      assert t[..0] == "" && Digits(t) == last as int - '0' as int;
      assert t == [last];
    }
  }

  /** Different index tokens name different elements. */
  lemma IndexInjective(t: string, u: string)
    requires Index(t).Some? && Index(t) == Index(u)
    ensures t == u
  {
    NumeralOfDigits(t);
    NumeralOfDigits(u);
  }

  // ---- Navigation and edits on values

  function Child(v: Json, token: string): Option<Json> {
    match v
    case Obj(fields) => if token in fields then Some(fields[token]) else None
    case Arr(items) => if Index(token).Some? && Index(token).value < |items| then Some(items[Index(token).value]) else None
    case _ => None
  }

  function Select(v: Json, tokens: seq<string>): Option<Json> {
    if tokens == [] then Some(v)
    else
      match Child(v, tokens[0])
      case None => None
      case Some(child) => Select(child, tokens[1..])
  }

  /** An object takes any member; an array only replaces an element it has. */
  function WithChild(v: Json, token: string, child: Json): Option<Json> {
    match v
    case Obj(fields) => Some(Obj(fields[token := child]))
    case Arr(items) =>
      if Index(token).Some? && Index(token).value < |items| then Some(Arr(items[Index(token).value := child])) else None
    case _ => None
  }

  function WithoutChild(v: Json, token: string): Option<Json> {
    match v
    case Obj(fields) => if token in fields then Some(Obj(fields - {token})) else None
    case Arr(items) =>
      if Index(token).Some? && Index(token).value < |items|
      then Some(Arr(items[..Index(token).value] + items[Index(token).value + 1..])) else None
    case _ => None
  }

  /** The value with the part that exists at `tokens` replaced: a write through a reference to it. */
  function Graft(v: Json, tokens: seq<string>, part: Json): Json
    requires Select(v, tokens).Some?
  {
    if tokens == [] then part
    else WithChild(v, tokens[0], Graft(Child(v, tokens[0]).value, tokens[1..], part)).value
  }

  function Set(v: Json, tokens: seq<string>, replacement: Json): Option<Json> {
    if tokens == [] then Some(replacement)
    else
      var parents := tokens[..|tokens| - 1];
      match Select(v, parents)
      case None => None
      case Some(parent) =>
        match WithChild(parent, tokens[|tokens| - 1], replacement)
        case None => None
        case Some(edited) => Some(Graft(v, parents, edited))
  }

  function Remove(v: Json, tokens: seq<string>): Option<Json> {
    if tokens == [] then None
    else
      var parents := tokens[..|tokens| - 1];
      match Select(v, parents)
      case None => None
      case Some(parent) =>
        match WithoutChild(parent, tokens[|tokens| - 1])
        case None => None
        case Some(edited) => Some(Graft(v, parents, edited))
  }

  // ---- What an edit changes and what it leaves

  lemma {:induction false} SelectAppend(v: Json, p: seq<string>, q: seq<string>)
    ensures Select(v, p + q) == if Select(v, p).None? then None else Select(Select(v, p).value, q)
    decreases |p|
  {
    if p == [] {
      assert p + q == q;
    } else {
      assert (p + q)[1..] == p[1..] + q;
      if Child(v, p[0]).Some? {
        SelectAppend(Child(v, p[0]).value, p[1..], q);
      }
    }
  }

  lemma WithChildSelects(v: Json, token: string, child: Json, other: string)
    requires WithChild(v, token, child).Some?
    ensures Child(WithChild(v, token, child).value, other) == if other == token then Some(child) else Child(v, other)
  {
    if v.Arr? && other != token && Index(other).Some? && Index(other) == Index(token) {
      IndexInjective(token, other);
    }
  }

  predicate Incomparable(p: seq<string>, q: seq<string>) {
    !(p <= q) && !(q <= p)
  }

  /** A graft is seen at its place and nowhere beside it. */
  lemma {:induction false} GraftSelects(v: Json, p: seq<string>, part: Json, q: seq<string>)
    requires Select(v, p).Some?
    ensures Select(Graft(v, p, part), p) == Some(part)
    ensures Incomparable(p, q) ==> Select(Graft(v, p, part), q) == Select(v, q)
    decreases |p|
  {
    if p != [] {
      var child := Child(v, p[0]).value;
      var tail := if q == [] then [] else q[1..];
      GraftSelects(child, p[1..], part, tail);
      WithChildSelects(v, p[0], Graft(child, p[1..], part), p[0]);
      if q != [] {
        WithChildSelects(v, p[0], Graft(child, p[1..], part), q[0]);
        assert q[0] == p[0] && p[1..] <= q[1..] ==> p <= q;
        assert q[0] == p[0] && q[1..] <= p[1..] ==> q <= p;
      }
    }
  }

  /** Selecting after a set gives the new value, and every pointer beside it still selects what it did. */
  lemma SetSelects(v: Json, p: seq<string>, replacement: Json, q: seq<string>)
    requires Set(v, p, replacement).Some?
    ensures Select(Set(v, p, replacement).value, p) == Some(replacement)
    ensures Incomparable(p, q) ==> Select(Set(v, p, replacement).value, q) == Select(v, q)
  {
    if p != [] {
      var parents, last := p[..|p| - 1], p[|p| - 1];
      var parent := Select(v, parents).value;
      var edited := WithChild(parent, last, replacement).value;
      EditSelects(v, parents, last, edited, q);
      WithChildSelects(parent, last, replacement, last);
      if Incomparable(p, q) && parents < q {
        WithChildSelects(parent, last, replacement, q[|parents|]);
        assert q[|parents|] == last ==> p <= q;
      }
      assert p == parents + [last];
    }
  }

  /** Pointers not below the edited parent are unaffected; those below see the edited parent. */
  lemma EditSelects(v: Json, parents: seq<string>, last: string, edited: Json, q: seq<string>)
    requires Select(v, parents).Some?
    ensures Select(Graft(v, parents, edited), parents + [last]) == Select(edited, [last])
    ensures Incomparable(parents, q) ==> Select(Graft(v, parents, edited), q) == Select(v, q)
    ensures parents < q ==>
              && Select(v, q) == Select(Select(v, parents).value, q[|parents|..])
              && Select(Graft(v, parents, edited), q) == Select(edited, q[|parents|..])
  {
    GraftSelects(v, parents, edited, q);
    SelectAppend(Graft(v, parents, edited), parents, [last]);
    if parents < q {
      assert q == parents + q[|parents|..];
      SelectAppend(v, parents, q[|parents|..]);
      SelectAppend(Graft(v, parents, edited), parents, q[|parents|..]);
    }
  }

  /**
    Removing an object member leaves nothing there and every pointer beside it unchanged.
    Removing an array element closes the gap: earlier elements stay, later ones move down by one.
   */
  lemma RemoveSelects(v: Json, p: seq<string>, q: seq<string>)
    requires Remove(v, p).Some?
    ensures p != [] && Select(v, p).Some?
    ensures var parents := p[..|p| - 1];
            var parent, edited := Select(v, parents).value, Select(Remove(v, p).value, parents);
            && (Incomparable(parents, q) ==> Select(Remove(v, p).value, q) == Select(v, q))
            && (parent.Obj? ==>
                  && Select(Remove(v, p).value, p) == None
                  && (Incomparable(p, q) ==> Select(Remove(v, p).value, q) == Select(v, q)))
            && (parent.Arr? ==>
                  && Index(p[|p| - 1]).Some? && Index(p[|p| - 1]).value < |parent.items|
                  && edited.Some? && edited.value.Arr?
                  && |edited.value.items| == |parent.items| - 1
                  && forall i :: 0 <= i < |edited.value.items| ==>
                       edited.value.items[i] == parent.items[if i < Index(p[|p| - 1]).value then i else i + 1])
  {
    var parents, last := p[..|p| - 1], p[|p| - 1];
    var parent := Select(v, parents).value;
    var edited := WithoutChild(parent, last).value;
    assert p == parents + [last];
    SelectAppend(v, parents, [last]);
    EditSelects(v, parents, last, edited, q);
    GraftSelects(v, parents, edited, q);
    if parent.Obj? && Incomparable(p, q) && parents < q {
      assert q[|parents|] == last ==> p <= q;
      assert q[|parents|..][0] == q[|parents|];
    }
  }

  // ---- The in-place operations

  class JsonCell {
    var value: Json

    constructor (initial: Json)
      ensures value == initial
    {
      value := initial;
    }

    method Find(tokens: seq<string>) returns (r: Option<Json>)
      ensures r == Select(value, tokens)
    {
      var at := value;
      assert tokens[0..] == tokens;
      for i := 0 to |tokens|
        invariant Select(value, tokens) == Select(at, tokens[i..])
      {
        assert tokens[i..][1..] == tokens[i + 1..];
        var child := Child(at, tokens[i]);
        if child.None? {
          return None;
        }
        at := child.value;
      }
      return Some(at);
    }

    method Lookup(pointer: string) returns (r: Option<Json>)
      ensures r == if Tokens(pointer).None? then None else Select(value, Tokens(pointer).value)
    {
      var tokens := ParsePointer(pointer);
      if tokens.None? {
        return None;
      }
      r := Find(tokens.value);
    }

    /** A set that fails changes nothing. */
    method SetAt(pointer: string, replacement: Json) returns (ok: bool)
      modifies this
      ensures ok <==> Tokens(pointer).Some? && Set(old(value), Tokens(pointer).value, replacement).Some?
      ensures ok ==> Some(value) == Set(old(value), Tokens(pointer).value, replacement)
      ensures !ok ==> value == old(value)
    {
      var tokens := ParsePointer(pointer);
      if tokens.None? {
        return false;
      }
      if tokens.value == [] {
        value := replacement;
        return true;
      }
      var last, parents := tokens.value[|tokens.value| - 1], tokens.value[..|tokens.value| - 1];
      var parent := Find(parents);
      if parent.None? {
        return false;
      }
      var edited := WithChild(parent.value, last, replacement);
      if edited.None? {
        return false;
      }
      value := Graft(value, parents, edited.value);
      return true;
    }

    /** The root is not removed here: the caller turns that into a tombstone. */
    method RemoveAt(pointer: string) returns (ok: bool)
      modifies this
      ensures ok <==> Tokens(pointer).Some? && Remove(old(value), Tokens(pointer).value).Some?
      ensures ok ==> Some(value) == Remove(old(value), Tokens(pointer).value)
      ensures !ok ==> value == old(value)
    {
      var tokens := ParsePointer(pointer);
      if tokens.None? || tokens.value == [] {
        return false;
      }
      var last, parents := tokens.value[|tokens.value| - 1], tokens.value[..|tokens.value| - 1];
      var parent := Find(parents);
      if parent.None? {
        return false;
      }
      var edited := WithoutChild(parent.value, last);
      if edited.None? {
        return false;
      }
      value := Graft(value, parents, edited.value);
      return true;
    }
  }
}
