/** Looking up a name in a cookie string, and the decimal session ids kept there. */
module Cookies {
  import opened Wrappers
  import opened StringUtil

  const SEPARATOR := "; "
  const EQUALS := "="
  const SSID := "SSID"

  datatype Pair = Pair(name: string, value: string)

  /** The value of the first piece of the form key=value; pieces that do not split into
      exactly two parts are passed over. */
  function FirstValue(pieces: seq<string>, key: string): Option<string> {
    if pieces == [] then None
    else
      var kv := SplitAt(pieces[0], EQUALS);
      if |kv| == 2 && kv[0] == key then Some(kv[1]) else FirstValue(pieces[1..], key)
  }

  function Lookup(cookie: string, key: string): Option<string> {
    FirstValue(SplitAt(cookie, SEPARATOR), key)
  }

  method GetCookieVal(cookie: string, key: string) returns (found: bool, val: string)
    ensures match Lookup(cookie, key) case Some(v) => found && val == v case None => !found
  {
    var pieces := Split(cookie, SEPARATOR);
    found, val := false, "";
    var i := 0;
    while i < |pieces|
      invariant 0 <= i <= |pieces|
      invariant FirstValue(pieces[i..], key) == FirstValue(pieces, key)
    {
      assert pieces[i..][0] == pieces[i] && pieces[i..][1..] == pieces[i + 1..];
      var kv := Split(pieces[i], EQUALS);
      if |kv| == 2 && kv[0] == key {
        return true, kv[1];
      }
      i := i + 1;
    }
    assert pieces[i..] == [];
  }

  // ----- Rendering -----

  function Assignment(p: Pair): string {
    p.name + EQUALS + p.value
  }

  function Assignments(ps: seq<Pair>): seq<string> {
    if ps == [] then [] else [Assignment(ps[0])] + Assignments(ps[1..])
  }

  function Render(ps: seq<Pair>): string {
    Join(Assignments(ps), SEPARATOR)
  }

  /** The value of the first pair with this name. */
  function ValueOf(ps: seq<Pair>, key: string): Option<string> {
    if ps == [] then None else if ps[0].name == key then Some(ps[0].value) else ValueOf(ps[1..], key)
  }

  predicate Plain(s: string) {
    s != "" && Free(s, EQUALS) && Free(s, SEPARATOR)
  }

  predicate AllPlain(ps: seq<Pair>) {
    forall i | 0 <= i < |ps| :: Plain(ps[i].name) && Plain(ps[i].value)
  }

  /** A separator inside left + "=" + right lies wholly on one side. */
  lemma NoStraddle(left: string, right: string, i: nat)
    requires OccursAt(left + EQUALS + right, i, SEPARATOR)
    ensures OccursAt(left, i, SEPARATOR) || (i > |left| && OccursAt(right, i - |left| - 1, SEPARATOR))
  {
    var s, n := left + EQUALS + right, |left|;
    assert SEPARATOR[0] == s[i] && SEPARATOR[1] == s[i + 1] && s[n] == '=';
    if i + 2 <= n {
      assert left[i] == s[i] && left[i + 1] == s[i + 1];
    } else {
      assert right[i - n - 1] == s[i] && right[i - n] == s[i + 1];
    }
  }

  lemma AssignmentHasNoSeparator(p: Pair)
    requires Plain(p.name) && Plain(p.value)
    ensures Free(Assignment(p), SEPARATOR)
  {
    var r := FindFrom(Assignment(p), SEPARATOR, 0);
    FindsTheFirst(Assignment(p), SEPARATOR, 0);
    FindsTheFirst(p.name, SEPARATOR, 0);
    FindsTheFirst(p.value, SEPARATOR, 0);
    if r.Some? {
      NoStraddle(p.name, p.value, r.value);
    }
  }

  /** Splitting an assignment at the equals sign gives back its two sides. */
  lemma AssignmentSplits(p: Pair)
    requires Plain(p.name) && Plain(p.value)
    ensures SplitAt(Assignment(p), EQUALS) == [p.name, p.value]
  {
    SplitUndoesJoin(EQUALS);
    var ts := [p.name, p.value];
    assert Borderless(EQUALS);
    assert Clean(ts, EQUALS);
    assert ts[1..] == [p.value];
    assert Join(ts, EQUALS) == Assignment(p);
  }

  lemma SeparatorIsBorderless()
    ensures Borderless(SEPARATOR)
  {
    assert SEPARATOR[..1] == ";" && SEPARATOR[1..] == " ";
    assert ";"[0] != " "[0];
  }

  lemma {:induction false} AssignmentsAreClean(ps: seq<Pair>)
    requires AllPlain(ps)
    ensures Clean(Assignments(ps), SEPARATOR)
  {
    if ps == [] {
    } else {
      AssignmentHasNoSeparator(ps[0]);
      AssignmentsAreClean(ps[1..]);
    }
  }

  lemma {:induction false} FirstValueOfAssignments(ps: seq<Pair>, key: string)
    requires AllPlain(ps)
    ensures FirstValue(Assignments(ps), key) == ValueOf(ps, key)
  {
    if ps == [] {
    } else {
      AssignmentSplits(ps[0]);
      FirstValueOfAssignments(ps[1..], key);
      assert Assignments(ps)[1..] == Assignments(ps[1..]);
    }
  }

  /** Looking up a name in a rendered cookie string gives the first value with that name. */
  lemma LookupFindsFirst(ps: seq<Pair>, key: string)
    requires AllPlain(ps)
    ensures Lookup(Render(ps), key) == ValueOf(ps, key)
  {
    SeparatorIsBorderless();
    AssignmentsAreClean(ps);
    SplitUndoesJoin(SEPARATOR);
    FirstValueOfAssignments(ps, key);
  }

  // ----- Any cookie string -----

  /** A part between separators, as the fields between its equals signs. */
  type Part = seq<string>

  function Rendered(parts: seq<Part>): seq<string> {
    if parts == [] then [] else [Join(parts[0], EQUALS)] + Rendered(parts[1..])
  }

  predicate Proper(parts: seq<Part>) {
    forall i | 0 <= i < |parts| :: AllFree(parts[i], EQUALS) && Free(Join(parts[i], EQUALS), SEPARATOR)
  }

  /** The second of two nonempty fields, in the first part that has just two of them and whose
      first is the name. */
  function FirstPart(parts: seq<Part>, key: string): Option<string> {
    if parts == [] then None
    else
      var kv := NonEmpty(parts[0]);
      if |kv| == 2 && kv[0] == key then Some(kv[1]) else FirstPart(parts[1..], key)
  }

  lemma {:induction false} RenderedIsFree(parts: seq<Part>)
    requires Proper(parts)
    ensures AllFree(Rendered(parts), SEPARATOR)
  {
    if parts == [] {
    } else {
      RenderedIsFree(parts[1..]);
    }
  }

  lemma EqualsIsBorderless()
    ensures Borderless(EQUALS)
  {
  }

  lemma {:induction false} FirstValueOfParts(parts: seq<Part>, key: string)
    requires Proper(parts)
    ensures FirstValue(NonEmpty(Rendered(parts)), key) == FirstPart(parts, key)
  {
    if parts == [] {
    } else {
      var text, rest := Join(parts[0], EQUALS), NonEmpty(Rendered(parts[1..]));
      EqualsIsBorderless();
      SplitDropsEmpty(parts[0], EQUALS);
      FirstValueOfParts(parts[1..], key);
      assert Rendered(parts)[1..] == Rendered(parts[1..]);
      if text == "" {
        assert NonEmpty(parts[0]) == [];
      } else {
        assert ([text] + rest)[1..] == rest;
      }
    }
  }

  /** In any cookie string at all, the lookup gives the value of the first part that consists
      of the name and one value; parts with fewer or more nonempty fields are passed over. */
  lemma LookupInAnyCookie(cookie: string, key: string) returns (parts: seq<Part>)
    ensures Proper(parts) && Join(Rendered(parts), SEPARATOR) == cookie && parts != []
    ensures Lookup(cookie, key) == FirstPart(parts, key)
  {
    var texts := EveryStringIsAJoin(cookie, SEPARATOR, 0);
    assert cookie[0..] == cookie;
    parts := PartsOf(texts);
    SeparatorIsBorderless();
    RenderedIsFree(parts);
    SplitDropsEmpty(Rendered(parts), SEPARATOR);
    FirstValueOfParts(parts, key);
  }

  lemma {:induction false} PartsOf(texts: seq<string>) returns (parts: seq<Part>)
    requires AllFree(texts, SEPARATOR)
    ensures Proper(parts) && Rendered(parts) == texts
  {
    if texts == [] {
      parts := [];
    } else {
      var first := EveryStringIsAJoin(texts[0], EQUALS, 0);
      assert texts[0][0..] == texts[0];
      var rest := PartsOf(texts[1..]);
      parts := [first] + rest;
      assert parts[1..] == rest && [texts[0]] + texts[1..] == texts;
    }
  }

  // ----- Decimal session ids -----

  function Digit(d: nat): char
    requires d < 10
  {
    ['0', '1', '2', '3', '4', '5', '6', '7', '8', '9'][d]
  }

  function Print(n: nat): string {
    if n < 10 then [Digit(n)] else Print(n / 10) + [Digit(n % 10)]
  }

  predicate Digits(s: string) {
    forall i | 0 <= i < |s| :: '0' <= s[i] <= '9'
  }

  /** The number that a string of digits stands for. */
  function Parse(s: string): nat
    requires Digits(s)
  {
    if s == "" then 0 else 10 * Parse(s[..|s| - 1]) + (s[|s| - 1] as int - '0' as int)
  }

  lemma DigitStandsFor(d: nat)
    requires d < 10
    ensures '0' <= Digit(d) <= '9' && Digit(d) as int - '0' as int == d
  {
  }

  lemma ParseOneMore(s: string, d: nat)
    requires Digits(s) && d < 10
    ensures Digits(s + [Digit(d)]) && Parse(s + [Digit(d)]) == 10 * Parse(s) + d
  {
    DigitStandsFor(d);
    assert (s + [Digit(d)])[..|s|] == s;
  }

  lemma {:induction false} ParseUndoesPrint(n: nat)
    ensures Print(n) != "" && Digits(Print(n)) && Parse(Print(n)) == n
    ensures Print(n)[0] == '0' ==> n == 0 && Print(n) == "0"
  {
    if n >= 10 {
      ParseUndoesPrint(n / 10);
      ParseOneMore(Print(n / 10), n % 10);
    } else {
      ParseOneMore("", n);
      assert "" + [Digit(n)] == [Digit(n)];
    }
  }

  lemma AbsentIsFree(s: string, sep: string)
    requires sep != "" && sep[0] !in s
    ensures Free(s, sep)
  {
    FindsTheFirst(s, sep, 0);
  }

  lemma DigitsArePlain(s: string)
    requires Digits(s) && s != ""
    ensures Plain(s)
  {
    AbsentIsFree(s, EQUALS);
    AbsentIsFree(s, SEPARATOR);
  }

  lemma SsidIsPlain()
    ensures Plain(SSID)
  {
    AbsentIsFree(SSID, EQUALS);
    AbsentIsFree(SSID, SEPARATOR);
  }

  /** A session id set by a login, among any other cookies that do not use its name, is read
      back as the same number. */
  lemma SsidRoundTrip(before: seq<Pair>, ssid: nat, after: seq<Pair>)
    requires AllPlain(before) && AllPlain(after) && ValueOf(before, SSID) == None
    ensures var found := Lookup(Render(before + [Pair(SSID, Print(ssid))] + after), SSID);
            found == Some(Print(ssid)) && Digits(found.value) && Parse(found.value) == ssid
  {
    ParseUndoesPrint(ssid);
    DigitsArePlain(Print(ssid));
    SsidIsPlain();
    var ps := before + [Pair(SSID, Print(ssid))] + after;
    assert AllPlain(ps);
    LookupFindsFirst(ps, SSID);
    ValueAfter(before, Pair(SSID, Print(ssid)), after);
  }

  lemma {:induction false} ValueAfter(before: seq<Pair>, p: Pair, after: seq<Pair>)
    requires ValueOf(before, p.name) == None
    ensures ValueOf(before + [p] + after, p.name) == Some(p.value)
  {
    if before == [] {
    } else {
      ValueAfter(before[1..], p, after);
      assert (before + [p] + after)[1..] == before[1..] + [p] + after;
    }
  }
}
