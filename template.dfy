/** Python's `string.Template(t).safe_substitute(tokens)`: `$$` is a literal
    dollar, `$name` and `${name}` are replaced when `name` is a token and kept
    as written otherwise, and any other `$` stays as it is. Identifiers are ASCII
    letters, digits and underscores, not starting with a digit, either case. */
module Template {

  predicate IsIdentStart(c: char) {
    ('a' <= c <= 'z') || ('A' <= c <= 'Z') || c == '_'
  }

  predicate IsIdentChar(c: char) {
    IsIdentStart(c) || ('0' <= c <= '9')
  }

  /** The length of the longest prefix of s made of identifier characters. */
  function IdentRun(s: string): (n: nat)
    ensures n <= |s|
    ensures forall i :: 0 <= i < n ==> IsIdentChar(s[i])
    ensures n < |s| ==> !IsIdentChar(s[n])
  {
    if |s| == 0 || !IsIdentChar(s[0]) then 0 else 1 + IdentRun(s[1..])
  }

  predicate IsIdentifier(name: string) {
    |name| > 0 && IsIdentStart(name[0]) && forall i :: 0 <= i < |name| ==> IsIdentChar(name[i])
  }

  function SafeSubstitute(t: string, tokens: map<string, string>): string
    decreases |t|
  {
    if |t| == 0 then ""
    else if t[0] != '$' then [t[0]] + SafeSubstitute(t[1..], tokens)
    else if |t| >= 2 && t[1] == '$' then "$" + SafeSubstitute(t[2..], tokens)
    else if |t| >= 2 && IsIdentStart(t[1]) then
      var n := 1 + IdentRun(t[2..]);
      var name := t[1..1 + n];
      (if name in tokens then tokens[name] else "$" + name) + SafeSubstitute(t[1 + n..], tokens)
    else if |t| >= 3 && t[1] == '{' && IsIdentStart(t[2]) && 3 + IdentRun(t[3..]) < |t| && t[3 + IdentRun(t[3..])] == '}' then
      var n := 1 + IdentRun(t[3..]);
      var name := t[2..2 + n];
      (if name in tokens then tokens[name] else t[..3 + n]) + SafeSubstitute(t[3 + n..], tokens)
    else "$" + SafeSubstitute(t[1..], tokens)
  }

  /** Text without a dollar sign passes through unchanged. */
  lemma {:induction false} NoDollarUnchanged(t: string, tokens: map<string, string>)
    requires '$' !in t
    ensures SafeSubstitute(t, tokens) == t
    decreases |t|
  {
    if |t| > 0 {
      assert t[0] != '$';
      assert '$' !in t[1..];
      NoDollarUnchanged(t[1..], tokens);
    }
  }

  /** A dollar-free prefix is copied and substitution continues after it. */
  lemma {:induction false} DollarFreePrefix(a: string, b: string, tokens: map<string, string>)
    requires '$' !in a
    ensures SafeSubstitute(a + b, tokens) == a + SafeSubstitute(b, tokens)
    decreases |a|
  {
    if |a| > 0 {
      var t := a + b;
      assert t[0] == a[0] && t[0] != '$';
      assert t[1..] == a[1..] + b;
      assert SafeSubstitute(t, tokens) == [t[0]] + SafeSubstitute(t[1..], tokens);
      assert '$' !in a[1..];
      DollarFreePrefix(a[1..], b, tokens);
      assert a == [a[0]] + a[1..];
      calc {
        SafeSubstitute(t, tokens);
        [a[0]] + (a[1..] + SafeSubstitute(b, tokens));
        ([a[0]] + a[1..]) + SafeSubstitute(b, tokens);
      }
    } else {
      assert a + b == b;
    }
  }

  lemma {:induction false} IdentRunOfIdentifier(name: string, rest: string)
    requires forall i :: 0 <= i < |name| ==> IsIdentChar(name[i])
    requires |rest| == 0 || !IsIdentChar(rest[0])
    ensures IdentRun(name + rest) == |name|
    decreases |name|
  {
    if |name| == 0 {
      assert name + rest == rest;
    } else {
      assert (name + rest)[0] == name[0];
      assert (name + rest)[1..] == name[1..] + rest;
      IdentRunOfIdentifier(name[1..], rest);
    }
  }

  /** `$name` followed by a non-identifier character is replaced by the token's value,
      or kept verbatim when the name is not a token. */
  lemma NamedPlaceholder(name: string, rest: string, tokens: map<string, string>)
    requires IsIdentifier(name)
    requires |rest| == 0 || !IsIdentChar(rest[0])
    ensures SafeSubstitute("$" + name + rest, tokens) ==
              (if name in tokens then tokens[name] else "$" + name) + SafeSubstitute(rest, tokens)
  {
    var t := "$" + name + rest;
    assert t[0] == '$' && t[1] == name[0];
    assert t[2..] == name[1..] + rest;
    IdentRunOfIdentifier(name[1..], rest);
    var n := 1 + IdentRun(t[2..]);
    assert n == |name|;
    assert t[1..1 + n] == name;
    assert t[1 + n..] == rest;
  }

  /** `${name}` is replaced by the token's value, or kept verbatim when it is not a token. */
  lemma BracedPlaceholder(name: string, rest: string, tokens: map<string, string>)
    requires IsIdentifier(name)
    ensures SafeSubstitute("${" + name + "}" + rest, tokens) ==
              (if name in tokens then tokens[name] else "${" + name + "}") + SafeSubstitute(rest, tokens)
  {
    var t := "${" + name + "}" + rest;
    assert t[0] == '$' && t[1] == '{' && t[2] == name[0];
    assert t[3..] == name[1..] + ("}" + rest);
    IdentRunOfIdentifier(name[1..], "}" + rest);
    assert IdentRun(t[3..]) == |name| - 1;
    assert t[3 + IdentRun(t[3..])] == '}';
    var n := |name|;
    assert t[2..2 + n] == name;
    assert t[..3 + n] == "${" + name + "}";
    assert t[3 + n..] == rest;
  }

  /** `$$` stands for one literal dollar sign. */
  lemma EscapedDollar(rest: string, tokens: map<string, string>)
    ensures SafeSubstitute("$$" + rest, tokens) == "$" + SafeSubstitute(rest, tokens)
  {
    assert ("$$" + rest)[2..] == rest;
  }
}
