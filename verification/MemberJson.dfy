/** The text `json.Marshal` produces for a list of members (Go 1.18, HTML escaping on), and the proof that
    it determines the list.  Texts are built with their continuation, so that every field is followed by
    the rest of the document. */
module MemberJson {
  import opened Models

  function Hex(i: int): char
    requires 0 <= i < 16
  {
    if i < 10 then ('0' as int + i) as char else ('a' as int + i - 10) as char
  }

  function Escape(c: char): (e: string)
    ensures e != "" && e[0] != '"'
  {
    if c == '"' then "\\\""
    else if c == '\\' then "\\\\"
    else if c == '\n' then "\\n"
    else if c == '\r' then "\\r"
    else if c == '\t' then "\\t"
    else if c < ' ' || c in {'<', '>', '&'} then "\\u00" + [Hex(c as int / 16), Hex(c as int % 16)]
    else if c == '\U{2028}' then "\\u2028"
    else if c == '\U{2029}' then "\\u2029"
    else [c]
  }

  /** A JSON string literal followed by `rest`. */
  function Quoted(s: string, rest: string): string {
    "\"" + Escaped(s, rest)
  }

  function Escaped(s: string, rest: string): string {
    if s == "" then "\"" + rest else Escape(s[0]) + Escaped(s[1..], rest)
  }

  function Bool(b: bool): string {
    if b then "true" else "false"
  }

  function Object(m: Member, rest: string): string {
    "{\"active\":" + (Bool(m.active) + (",\"publisher\":" + (Bool(m.publisher) + (",\"label\":" + Quoted(m.name,
    ",\"inv\":" + Quoted(m.inv, ",\"pubEndpoint\":" + Quoted(m.pubEndpoint, "}" + rest)))))))
  }

  function Elements(ms: seq<Member>): string {
    if ms == [] then "]" else "," + Object(ms[0], Elements(ms[1..]))
  }

  /** The document; a nil slice is written `null`. */
  function Encode(ms: seq<Member>): string {
    if ms == [] then "null" else "[" + Object(ms[0], Elements(ms[1..]))
  }

  // ------------------------------------------------------------------------------------- the text

  /** Characters that a string literal holds as they are. */
  predicate Verbatim(s: string) {
    forall c :: c in s ==> c >= ' ' && c !in {'"', '\\', '<', '>', '&', '\U{2028}', '\U{2029}'}
  }

  lemma {:induction false} VerbatimEscaped(s: string, rest: string)
    requires Verbatim(s)
    ensures Escaped(s, rest) == s + ("\"" + rest)
  {
    if s != "" {
      VerbatimCharacter(s);
      VerbatimEscaped(s[1..], rest);
      HeadAndTail(s, "\"" + rest);
    }
  }

  lemma VerbatimCharacter(s: string)
    requires Verbatim(s) && s != ""
    ensures Escape(s[0]) == [s[0]] && Verbatim(s[1..])
  {
    assert s[0] in s && forall c :: c in s[1..] ==> c in s;
  }

  lemma HeadAndTail(s: string, rest: string)
    requires s != ""
    ensures [s[0]] + (s[1..] + rest) == s + rest
  {
  }

  lemma Regroup(x: string, y: string, z: string)
    ensures x + (y + z) == x + y + z
  {
  }

  /** The text of one member whose fields need no escapes. */
  lemma PlainMember(m: Member)
    requires Verbatim(m.name) && Verbatim(m.inv) && Verbatim(m.pubEndpoint)
    ensures Encode([m]) ==
            "[" + ("{\"active\":" + ((if m.active then "true" else "false") +
                   (",\"publisher\":" + ((if m.publisher then "true" else "false") +
                   (",\"label\":" + ("\"" + (m.name + ("\"" +
                   (",\"inv\":" + ("\"" + (m.inv + ("\"" +
                   (",\"pubEndpoint\":" + ("\"" + (m.pubEndpoint + ("\"" + "}]"))))))))))))))))
  {
    var end := "}" + Elements([]);
    assert end == "}]";
    VerbatimEscaped(m.pubEndpoint, end);
    VerbatimEscaped(m.inv, ",\"pubEndpoint\":" + Quoted(m.pubEndpoint, end));
    VerbatimEscaped(m.name, ",\"inv\":" + Quoted(m.inv, ",\"pubEndpoint\":" + Quoted(m.pubEndpoint, end)));
    assert [m][1..] == [];
  }

  lemma OneCharacter(c: char)
    ensures Quoted([c], "") == "\"" + (Escape(c) + "\"")
  {
    assert [c][1..] == "" && Escaped("", "") == "\"";
  }

  /** Quotes, backslashes, control characters, the characters special to HTML, and the two line separators are
      escaped. */
  lemma EscapedCharacter(c: char)
    ensures c == '"' ==> Quoted([c], "") == "\"" + ("\\\"" + "\"")
    ensures c == '\\' ==> Quoted([c], "") == "\"" + ("\\\\" + "\"")
    ensures c == '\n' ==> Quoted([c], "") == "\"" + ("\\n" + "\"")
    ensures c == '\r' ==> Quoted([c], "") == "\"" + ("\\r" + "\"")
    ensures c == '\t' ==> Quoted([c], "") == "\"" + ("\\t" + "\"")
    ensures c == '<' ==> Quoted([c], "") == "\"" + ("\\u003c" + "\"")
    ensures c == '>' ==> Quoted([c], "") == "\"" + ("\\u003e" + "\"")
    ensures c == '&' ==> Quoted([c], "") == "\"" + ("\\u0026" + "\"")
    ensures c == '\U{2028}' ==> Quoted([c], "") == "\"" + ("\\u2028" + "\"")
    ensures c == '\U{2029}' ==> Quoted([c], "") == "\"" + ("\\u2029" + "\"")
    ensures c < ' ' && c !in {'\n', '\r', '\t'} ==>
              Quoted([c], "") == "\"" + ("\\u00" + ["01"[c as int / 16], "0123456789abcdef"[c as int % 16]] + "\"")
  {
    OneCharacter(c);
  }

  /** A literal is the concatenation of the literals of its characters, quotes apart. */
  lemma {:induction false} EscapedRest(s: string, x: string, y: string)
    ensures Escaped(s, x + y) == Escaped(s, x) + y
  {
    if s == "" {
      assert "\"" + (x + y) == "\"" + x + y;
    } else {
      EscapedRest(s[1..], x, y);
      assert Escape(s[0]) + (Escaped(s[1..], x) + y) == Escape(s[0]) + Escaped(s[1..], x) + y;
    }
  }

  lemma {:induction false} EscapedAppend(s: string, t: string)
    ensures Quoted(s, "")[|Quoted(s, "")| - 1] == '"'
    ensures Quoted(s + t, "") == Quoted(s, "")[..|Quoted(s, "")| - 1] + Quoted(t, "")[1..]
  {
    EscapedParts(s, t, "");
    EscapedParts(s, "", "");
    assert s + "" == s;
  }

  /** The escapes alone. */
  function Escapes(s: string): string {
    if s == "" then "" else Escape(s[0]) + Escapes(s[1..])
  }

  lemma {:induction false} EscapedParts(s: string, t: string, rest: string)
    ensures Escaped(s + t, rest) == Escapes(s) + Escaped(t, rest)
  {
    if s == "" {
      assert s + t == t;
    } else {
      EscapedParts(s[1..], t, rest);
      assert (s + t)[1..] == s[1..] + t;
    }
  }

  lemma QuotedRest(field: string, s: string, x: string, y: string)
    ensures field + Quoted(s, x + y) == field + Quoted(s, x) + y
  {
    EscapedRest(s, x, y);
  }

  lemma FieldRest(field: string, value: string, x: string, y: string)
    ensures field + (value + (x + y)) == field + (value + x) + y
  {
  }

  lemma ObjectRest(m: Member, x: string, y: string)
    ensures Object(m, x + y) == Object(m, x) + y
  {
    var inv := ",\"pubEndpoint\":" + Quoted(m.pubEndpoint, "}" + x);
    var name := ",\"inv\":" + Quoted(m.inv, inv);
    var publisher := ",\"label\":" + Quoted(m.name, name);
    assert "}" + (x + y) == "}" + x + y;
    QuotedRest(",\"pubEndpoint\":", m.pubEndpoint, "}" + x, y);
    QuotedRest(",\"inv\":", m.inv, inv, y);
    QuotedRest(",\"label\":", m.name, name, y);
    FieldRest(",\"publisher\":", Bool(m.publisher), publisher, y);
    FieldRest("{\"active\":", Bool(m.active), ",\"publisher\":" + (Bool(m.publisher) + publisher), y);
  }

  lemma ElementRest(prefix: string, m: Member, x: string, y: string)
    ensures prefix + Object(m, x + y) == prefix + Object(m, x) + y
  {
    ObjectRest(m, x, y);
    Regroup(prefix, Object(m, x), y);
  }

  lemma FirstOfBoth(a: seq<Member>, b: seq<Member>)
    requires a != []
    ensures (a + b)[1..] == a[1..] + b && (a + b)[0] == a[0] && a + b != []
  {
  }

  /** The elements without the closing bracket. */
  lemma {:induction false} ElementsParts(a: seq<Member>, b: seq<Member>) returns (init: string)
    ensures Elements(a) == init + "]" && Elements(a + b) == init + Elements(b)
  {
    if a == [] {
      assert a + b == b;
      init := "";
    } else {
      var parts := ElementsParts(a[1..], b);
      FirstOfBoth(a, b);
      ElementRest(",", a[0], parts, "]");
      ElementRest(",", a[0], parts, Elements(b));
      init := "," + Object(a[0], parts);
    }
  }

  /** Lists are joined by commas. */
  lemma EncodeAppend(a: seq<Member>, b: seq<Member>) returns (init: string, rest: string)
    requires a != [] && b != []
    ensures Encode(a) == init + "]" && Encode(b) == "[" + rest && Encode(a + b) == init + ("," + rest)
  {
    var parts := ElementsParts(a[1..], b);
    FirstOfBoth(a, b);
    ElementRest("[", a[0], parts, "]");
    ElementRest("[", a[0], parts, Elements(b));
    init, rest := "[" + Object(a[0], parts), Object(b[0], Elements(b[1..]));
  }

  lemma Cancel(prefix: string, x: string, y: string)
    requires prefix + x == prefix + y
    ensures x == y
  {
    assert (prefix + x)[|prefix|..] == x;
    assert (prefix + y)[|prefix|..] == y;
  }

  lemma EscapeUnique(c: char, d: char, x: string, y: string)
    requires Escape(c) + x == Escape(d) + y
    ensures c == d && x == y
  {
    var s, t := Escape(c) + x, Escape(d) + y;
    assert s[0] == Escape(c)[0] && t[0] == Escape(d)[0];
    if s[0] == '\\' {
      assert s[1] == Escape(c)[1] && t[1] == Escape(d)[1];
      if s[1] == 'u' {
        assert s[2] == Escape(c)[2] && t[2] == Escape(d)[2];
        assert s[4] == Escape(c)[4] && t[4] == Escape(d)[4];
        assert s[5] == Escape(c)[5] && t[5] == Escape(d)[5];
      }
    }
    assert c == d;
    Cancel(Escape(c), x, y);
  }

  lemma {:induction false} EscapedUnique(a: string, b: string, x: string, y: string)
    requires Escaped(a, x) == Escaped(b, y)
    ensures a == b && x == y
  {
    assert Escaped(a, x)[0] == Escaped(b, y)[0];
    if a == "" {
      Cancel("\"", x, y);
    } else {
      EscapeUnique(a[0], b[0], Escaped(a[1..], x), Escaped(b[1..], y));
      EscapedUnique(a[1..], b[1..], x, y);
      assert a == [a[0]] + a[1..] && b == [b[0]] + b[1..];
    }
  }

  lemma QuotedUnique(a: string, b: string, x: string, y: string)
    requires Quoted(a, x) == Quoted(b, y)
    ensures a == b && x == y
  {
    Cancel("\"", Escaped(a, x), Escaped(b, y));
    EscapedUnique(a, b, x, y);
  }

  lemma BoolUnique(a: bool, b: bool, x: string, y: string)
    requires Bool(a) + x == Bool(b) + y
    ensures a == b && x == y
  {
    assert (Bool(a) + x)[0] == Bool(a)[0] && (Bool(b) + y)[0] == Bool(b)[0];
    Cancel(Bool(a), x, y);
  }

  lemma ObjectUnique(m: Member, n: Member, x: string, y: string)
    requires Object(m, x) == Object(n, y)
    ensures m == n && x == y
  {
    var inv, inv' := Quoted(m.inv, ",\"pubEndpoint\":" + Quoted(m.pubEndpoint, "}" + x)),
        Quoted(n.inv, ",\"pubEndpoint\":" + Quoted(n.pubEndpoint, "}" + y));
    var named, named' := Quoted(m.name, ",\"inv\":" + inv), Quoted(n.name, ",\"inv\":" + inv');
    var pub, pub' := Bool(m.publisher) + (",\"label\":" + named), Bool(n.publisher) + (",\"label\":" + named');
    Cancel("{\"active\":", Bool(m.active) + (",\"publisher\":" + pub), Bool(n.active) + (",\"publisher\":" + pub'));
    BoolUnique(m.active, n.active, ",\"publisher\":" + pub, ",\"publisher\":" + pub');
    Cancel(",\"publisher\":", pub, pub');
    BoolUnique(m.publisher, n.publisher, ",\"label\":" + named, ",\"label\":" + named');
    Cancel(",\"label\":", named, named');
    QuotedUnique(m.name, n.name, ",\"inv\":" + inv, ",\"inv\":" + inv');
    Cancel(",\"inv\":", inv, inv');
    var end, end' := Quoted(m.pubEndpoint, "}" + x), Quoted(n.pubEndpoint, "}" + y);
    QuotedUnique(m.inv, n.inv, ",\"pubEndpoint\":" + end, ",\"pubEndpoint\":" + end');
    Cancel(",\"pubEndpoint\":", end, end');
    QuotedUnique(m.pubEndpoint, n.pubEndpoint, "}" + x, "}" + y);
    Cancel("}", x, y);
  }

  lemma {:induction false} ObjectsUnique(a: seq<Member>, b: seq<Member>)
    requires a != [] && b != [] && Object(a[0], Elements(a[1..])) == Object(b[0], Elements(b[1..]))
    ensures a == b
  {
    var x, y := Elements(a[1..]), Elements(b[1..]);
    ObjectUnique(a[0], b[0], x, y);
    assert x[0] == y[0];
    if a[1..] != [] && b[1..] != [] {
      Cancel(",", Object(a[1], Elements(a[1..][1..])), Object(b[1], Elements(b[1..][1..])));
      ObjectsUnique(a[1..], b[1..]);
    }
    assert a == [a[0]] + a[1..] && b == [b[0]] + b[1..];
  }

  /** The encoding is injective: equal documents come from equal member lists. */
  lemma EncodeInjective(a: seq<Member>, b: seq<Member>)
    requires Encode(a) == Encode(b)
    ensures a == b
  {
    assert Encode(a)[0] == Encode(b)[0];
    if a != [] && b != [] {
      Cancel("[", Object(a[0], Elements(a[1..])), Object(b[0], Elements(b[1..])));
      ObjectsUnique(a, b);
    }
  }

  lemma {:induction false} EscapedLength(s: string, rest: string)
    ensures |Escaped(s, rest)| >= 1 + |rest|
  {
    if s != "" { EscapedLength(s[1..], rest); }
  }

  /** The document has 44 characters, the length of an encoded 32-byte digest, exactly when the group is not empty. */
  lemma EncodeLength(ms: seq<Member>)
    ensures |Encode(ms)| >= 44 <==> ms != []
    ensures ms == [] ==> Encode(ms) == "null"
  {
    if ms != [] {
      var m, rest := ms[0], Elements(ms[1..]);
      EscapedLength(m.pubEndpoint, "}" + rest);
      EscapedLength(m.inv, ",\"pubEndpoint\":" + Quoted(m.pubEndpoint, "}" + rest));
      EscapedLength(m.name, ",\"inv\":" + Quoted(m.inv, ",\"pubEndpoint\":" + Quoted(m.pubEndpoint, "}" + rest)));
    }
  }
}
