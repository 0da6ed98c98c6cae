/** JSON Pointers (RFC 6901): escaping, rendering, parsing and evaluation. */
module JsonPointer {
  import opened Orderings
  import opened Json

  /** Every occurrence of `c` becomes `to`. */
  function Replace(s: string, c: char, to: string): string {
    if s == [] then [] else (if s[0] == c then to else [s[0]]) + Replace(s[1..], c, to)
  }

  /** Every `~d`, read from the left, becomes `to`. */
  function Restore(s: string, d: char, to: char): string {
    if s == [] then []
    else if |s| >= 2 && s[0] == '~' && s[1] == d then [to] + Restore(s[2..], d, to)
    else [s[0]] + Restore(s[1..], d, to)
  }

  /** The tilde first, then the slash. */
  function Escape(s: string): string { Replace(Replace(s, '~', "~0"), '/', "~1") }

  /** Section 4: `~1` first, then `~0`. */
  function Unescape(s: string): string { Restore(Restore(s, '1', '/'), '0', '~') }

  lemma {:induction false} ReplaceAppend(a: string, b: string, c: char, to: string)
    ensures Replace(a + b, c, to) == Replace(a, c, to) + Replace(b, c, to)
  {
    if a == [] {
      assert a + b == b;
    } else {
      assert (a + b)[1..] == a[1..] + b;
      ReplaceAppend(a[1..], b, c, to);
    }
  }

  /** Escaping works character by character. */
  function EscapeChar(c: char): string { if c == '~' then "~0" else if c == '/' then "~1" else [c] }

  lemma EscapeHead(s: string)
    requires s != []
    ensures Escape(s) == EscapeChar(s[0]) + Escape(s[1..])
  {
    var head := if s[0] == '~' then "~0" else [s[0]];
    ReplaceAppend(head, Replace(s[1..], '~', "~0"), '/', "~1");
    assert Replace([], '/', "~1") == [];
    if s[0] == '~' {
      assert head[1..] == "0" && head[1..][1..] == [];
      assert Replace("0", '/', "~1") == "0";
    } else {
      assert head[1..] == [];
    }
  }

  /** How restoring reads a plain character, its own escape, and another escape. */
  lemma RestoreFront(rest: string, c: char, d: char, to: char)
    ensures c != '~' ==> Restore([c] + rest, d, to) == [c] + Restore(rest, d, to)
    ensures Restore(['~', d] + rest, d, to) == [to] + Restore(rest, d, to)
    ensures c != d && c != '~' ==> Restore(['~', c] + rest, d, to) == ['~', c] + Restore(rest, d, to)
  {
    assert ([c] + rest)[1..] == rest;
    assert (['~', d] + rest)[2..] == rest;
    assert (['~', c] + rest)[1..] == [c] + rest;
  }

  /** Undoing the slash leaves the tilde escapes. */
  lemma {:induction false} RestoreSlash(s: string)
    ensures Restore(Escape(s), '1', '/') == Replace(s, '~', "~0")
  {
    if s != [] {
      EscapeHead(s);
      RestoreSlash(s[1..]);
      RestoreFront(Escape(s[1..]), if s[0] == '~' then '0' else s[0], '1', '/');
    }
  }

  lemma {:induction false} RestoreTilde(s: string)
    ensures Restore(Replace(s, '~', "~0"), '0', '~') == s
  {
    if s != [] {
      RestoreTilde(s[1..]);
      RestoreFront(Replace(s[1..], '~', "~0"), s[0], '0', '~');
      assert s == [s[0]] + s[1..];
    }
  }

  /** Escaping is undone by unescaping, for every name. */
  lemma EscapeRoundTrip(s: string)
    ensures Unescape(Escape(s)) == s
  {
    RestoreSlash(s);
    RestoreTilde(s);
  }

  lemma {:induction false} EscapedHasNoSlash(s: string)
    ensures '/' !in Escape(s)
  {
    if s != [] {
      EscapeHead(s);
      EscapedHasNoSlash(s[1..]);
    }
  }

  lemma {:induction false} EscapePlain(s: string)
    requires '~' !in s && '/' !in s
    ensures Escape(s) == s
  {
    if s != [] {
      EscapeHead(s);
      assert s[0] in s;
      EscapePlain(s[1..]);
      assert s == [s[0]] + s[1..];
    }
  }

  // ----- pointers ------------------------------------------------------------------

  function Render(tokens: seq<string>): string {
    if tokens == [] then [] else "/" + Escape(tokens[0]) + Render(tokens[1..])
  }

  lemma {:induction false} RenderAppend(a: seq<string>, b: seq<string>)
    ensures Render(a + b) == Render(a) + Render(b)
  {
    if a == [] {
      assert a + b == b;
    } else {
      assert (a + b)[1..] == a[1..] + b && (a + b)[0] == a[0];
      RenderAppend(a[1..], b);
    }
  }

  /** The position of the first slash, or the end. */
  function SlashAt(s: string): (k: nat)
    ensures k <= |s| && '/' !in s[..k] && (k < |s| ==> s[k] == '/')
  {
    if s == [] || s[0] == '/' then 0
    else
      var k := SlashAt(s[1..]);
      assert s[..k + 1] == [s[0]] + s[1..][..k];
      k + 1
  }

  /** Section 3: a pointer is empty or a slash and a token, repeated. */
  function Parse(pointer: string): Option<seq<string>>
    decreases |pointer|
  {
    if pointer == [] then Some([])
    else if pointer[0] != '/' then None
    else
      var rest := pointer[1..];
      var k := SlashAt(rest);
      match Parse(rest[k..])
      case None => None
      case Some(tokens) => Some([Unescape(rest[..k])] + tokens)
  }

  lemma {:induction false} SlashAfter(a: string, b: string)
    requires '/' !in a && (b == [] || b[0] == '/')
    ensures SlashAt(a + b) == |a|
  {
    if a == [] {
      assert a + b == b;
    } else {
      assert a[0] in a && (a + b)[1..] == a[1..] + b;
      SlashAfter(a[1..], b);
    }
  }

  /** One token more at the front. */
  lemma ParseFirst(token: string, rest: string, tokens: seq<string>)
    requires '/' !in token && (rest == [] || rest[0] == '/') && Parse(rest) == Some(tokens)
    ensures Parse("/" + token + rest) == Some([Unescape(token)] + tokens)
  {
    var pointer := "/" + token + rest;
    assert pointer[1..] == token + rest;
    SlashAfter(token, rest);
    assert (token + rest)[..|token|] == token && (token + rest)[|token|..] == rest;
  }

  /** What was rendered is parsed back, so different token lists render differently. */
  lemma {:induction false} ParseRender(tokens: seq<string>)
    ensures Parse(Render(tokens)) == Some(tokens)
  {
    if tokens != [] {
      ParseRender(tokens[1..]);
      EscapedHasNoSlash(tokens[0]);
      EscapeRoundTrip(tokens[0]);
      ParseFirst(Escape(tokens[0]), Render(tokens[1..]), tokens[1..]);
      assert tokens == [tokens[0]] + tokens[1..];
    }
  }

  // ----- evaluation ----------------------------------------------------------------

  predicate IsDigit(c: char) { '0' <= c <= '9' }

  function Digit(n: nat): (c: char)
    requires n < 10
    ensures IsDigit(c) && DigitValue(c) == n && (c == '0' <==> n == 0)
  {
    ('0' as int + n) as char
  }

  function DigitValue(c: char): nat
    requires IsDigit(c)
  {
    c as int - '0' as int
  }

  function Decimal(n: nat): string {
    if n < 10 then [Digit(n)] else Decimal(n / 10) + [Digit(n % 10)]
  }

  function Number(s: string): nat
    requires forall i :: 0 <= i < |s| ==> IsDigit(s[i])
  {
    if s == [] then 0 else 10 * Number(s[..|s| - 1]) + DigitValue(s[|s| - 1])
  }

  /** Section 4: digits without a leading zero. */
  function ArrayIndex(token: string): Option<nat> {
    if token != [] && (forall i :: 0 <= i < |token| ==> IsDigit(token[i])) && (token[0] != '0' || |token| == 1)
    then Some(Number(token)) else None
  }

  lemma {:induction false} DecimalDigits(n: nat)
    ensures var s := Decimal(n);
            && s != [] && (forall i :: 0 <= i < |s| ==> IsDigit(s[i])) && (n > 0 ==> s[0] != '0')
            && (n == 0 ==> s == "0")
  {
    if n >= 10 {
      DecimalDigits(n / 10);
    }
  }

  lemma {:induction false} DecimalRoundTrip(n: nat)
    ensures ArrayIndex(Decimal(n)) == Some(n)
  {
    DecimalDigits(n);
    if n < 10 {
      assert Decimal(n)[..0] == [] && Number([]) == 0;
      assert Number(Decimal(n)) == n;
    } else {
      DecimalRoundTrip(n / 10);
      assert Decimal(n)[..|Decimal(n)| - 1] == Decimal(n / 10);
    }
  }

  lemma NumberPositive(s: string)
    requires s != [] && s[0] != '0' && forall i :: 0 <= i < |s| ==> IsDigit(s[i])
    ensures Number(s) > 0
  {
    if |s| > 1 { NumberPositive(s[..|s| - 1]); }
  }

  /** Every index token is the decimal of its index. */
  lemma {:induction false} IndexIsDecimal(token: string)
    requires ArrayIndex(token).Some?
    ensures token == Decimal(Number(token))
  {
    var rest, last := token[..|token| - 1], token[|token| - 1];
    assert token == rest + [last];
    if |token| == 1 {
      assert rest == [] && Number(rest) == 0;
    } else {
      IndexIsDecimal(rest);
      NumberPositive(rest);
    }
    assert Digit(DigitValue(last)) == last;
  }

  lemma DecimalPlain(n: nat)
    ensures Escape(Decimal(n)) == Decimal(n)
  {
    DecimalDigits(n);
    EscapePlain(Decimal(n));
  }

  /** Section 4: members of objects by name, elements of arrays by index. */
  function Resolve(v: Value, tokens: seq<string>): Option<Value>
    decreases |tokens|
  {
    if tokens == [] then Some(v)
    else match v
         case Object(m) => if tokens[0] in m then Resolve(m[tokens[0]], tokens[1..]) else None
         case Array(items) =>
           (match ArrayIndex(tokens[0])
            case Some(i) => if i < |items| then Resolve(items[i], tokens[1..]) else None
            case None => None)
         case _ => None
  }

  /** Evaluation goes token by token. */
  lemma {:induction false} ResolveAppend(v: Value, a: seq<string>, b: seq<string>)
    ensures Resolve(v, a + b) == if Resolve(v, a).Some? then Resolve(Resolve(v, a).value, b) else None
    decreases |a|
  {
    if a == [] {
      assert a + b == b;
    } else {
      assert (a + b)[1..] == a[1..] + b;
      match v
      case Object(m) => if a[0] in m { ResolveAppend(m[a[0]], a[1..], b); }
      case Array(items) =>
        var i := ArrayIndex(a[0]);
        if i.Some? && i.value < |items| { ResolveAppend(items[i.value], a[1..], b); }
      case _ =>
    }
  }
}
