/** JSON pointers (RFC 6901): escaping of reference tokens, rendering, and reading them back. */
module JsonPointer {

  /** `str.replace` of one character. */
  function Replaced(s: string, c: char, text: string): string {
    if s == "" then "" else (if s[0] == c then text else [s[0]]) + Replaced(s[1..], c, text)
  }

  /** Section 3 of RFC 6901: "~" becomes "~0" first, then "/" becomes "~1". */
  function Escape(token: string): string {
    Replaced(Replaced(token, '~', "~0"), '/', "~1")
  }

  function Unescape(s: string): string {
    if s == "" then ""
    else if |s| >= 2 && s[0] == '~' && s[1] == '0' then "~" + Unescape(s[2..])
    else if |s| >= 2 && s[0] == '~' && s[1] == '1' then "/" + Unescape(s[2..])
    else [s[0]] + Unescape(s[1..])
  }

  function EscapedChar(c: char): string {
    if c == '~' then "~0" else if c == '/' then "~1" else [c]
  }

  lemma {:induction false} ReplacedJoin(a: string, b: string, c: char, text: string)
    ensures Replaced(a + b, c, text) == Replaced(a, c, text) + Replaced(b, c, text)
  {
    if a == "" {
      assert a + b == b;
    } else {
      assert (a + b)[1..] == a[1..] + b;
      ReplacedJoin(a[1..], b, c, text);
    }
  }

  lemma EscapeStep(token: string)
    requires token != ""
    ensures Escape(token) == EscapedChar(token[0]) + Escape(token[1..])
  {
    var c := token[0];
    var first := if c == '~' then "~0" else [c];
    ReplacedJoin(first, Replaced(token[1..], '~', "~0"), '/', "~1");
    assert Replaced("~0", '/', "~1") == "~0" by { assert "~0"[1..] == "0" && "0"[1..] == ""; }
    assert Replaced([c], '/', "~1") == if c == '/' then "~1" else [c] by { assert [c][1..] == ""; }
  }

  /** Escaping leaves no "/" and can be undone, so it is injective. */
  lemma {:induction false} EscapeRoundTrip(token: string)
    ensures '/' !in Escape(token)
    ensures Unescape(Escape(token)) == token
  {
    if token != "" {
      EscapeStep(token);
      EscapeRoundTrip(token[1..]);
      var rest := Escape(token[1..]);
      var c := token[0];
      assert token == [c] + token[1..];
      if c == '~' {
        assert ("~0" + rest)[2..] == rest;
      } else if c == '/' {
        assert ("~1" + rest)[2..] == rest;
      } else {
        assert ([c] + rest)[1..] == rest;
      }
    }
  }

  /** The pointer that `_json_pointer` builds token by token. */
  function Render(tokens: seq<string>): string {
    if tokens == [] then "" else "/" + Escape(tokens[0]) + Render(tokens[1..])
  }

  function TokenEnd(s: string): (n: nat)
    ensures n <= |s|
  {
    if s == "" || s[0] == '/' then 0 else 1 + TokenEnd(s[1..])
  }

  /** Reads a pointer back into its tokens. */
  function Parse(pointer: string): seq<string>
    decreases |pointer|
  {
    if pointer == "" then []
    else
      var rest := pointer[1..];
      [Unescape(rest[..TokenEnd(rest)])] + Parse(rest[TokenEnd(rest)..])
  }

  lemma {:induction false} TokenEndsAtSlash(token: string, rest: string)
    requires '/' !in token && (rest == "" || rest[0] == '/')
    ensures TokenEnd(token + rest) == |token|
  {
    if token == "" {
      assert token + rest == rest;
    } else {
      assert (token + rest)[1..] == token[1..] + rest;
      TokenEndsAtSlash(token[1..], rest);
    }
  }

  lemma ParseFirst(escaped: string, rest: string)
    requires '/' !in escaped && (rest == "" || rest[0] == '/')
    ensures Parse("/" + escaped + rest) == [Unescape(escaped)] + Parse(rest)
  {
    TokenEndsAtSlash(escaped, rest);
    var pointer := "/" + escaped + rest;
    var tail := escaped + rest;
    assert pointer[1..] == tail;
    assert tail[..|escaped|] == escaped && tail[|escaped|..] == rest;
  }

  lemma RenderStarts(tokens: seq<string>)
    ensures Render(tokens) == "" || Render(tokens)[0] == '/'
  {}

  /** Reading back what was rendered gives the tokens, so different token lists have different pointers. */
  lemma {:induction false} PointerRoundTrip(tokens: seq<string>)
    ensures Parse(Render(tokens)) == tokens
  {
    if tokens != [] {
      PointerRoundTrip(tokens[1..]);
      EscapeRoundTrip(tokens[0]);
      RenderStarts(tokens[1..]);
      ParseFirst(Escape(tokens[0]), Render(tokens[1..]));
    }
  }

  /** `str` of a list index. */
  function Decimal(n: nat): string {
    (if n < 10 then "" else Decimal(n / 10)) + ['0' + (n % 10) as char]
  }

  function ValueOf(digits: string): int {
    if digits == "" then 0
    else ValueOf(digits[..|digits| - 1]) * 10 + digits[|digits| - 1] as int - '0' as int
  }

  lemma {:induction false} DecimalRoundTrip(n: nat)
    ensures ValueOf(Decimal(n)) == n
  {
    var init := if n < 10 then "" else Decimal(n / 10);
    assert Decimal(n)[..|Decimal(n)| - 1] == init;
    if n >= 10 { DecimalRoundTrip(n / 10); }
  }
}
