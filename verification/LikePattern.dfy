// LIKE patterns with a backslash escape, and the escaping of a search value. Letters stand
// for themselves; case folding is not part of this model.
module LikePattern {

  const ESCAPE := '\\'

  predicate Special(c: char) {
    c == ESCAPE || c == '%' || c == '_'
  }

  // One pass of the replacer: every special character gets a backslash in front.
  function Escape(v: string): string {
    if v == "" then "" else (if Special(v[0]) then [ESCAPE, v[0]] else [v[0]]) + Escape(v[1..])
  }

  // The replacer as it runs, left to right.
  method EscapeLikePattern(v: string) returns (r: string)
    ensures r == Escape(v)
  {
    hide Escape;
    r := "";
    assert v[0..] == v;
    for i := 0 to |v|
      invariant r + Escape(v[i..]) == Escape(v)
    {
      EscapeStep(v, i);
      var piece := if Special(v[i]) then [ESCAPE, v[i]] else [v[i]];
      assert r + (piece + Escape(v[i + 1..])) == (r + piece) + Escape(v[i + 1..]);
      r := r + piece;
    }
    assert v[|v|..] == "" && Escape("") == "" by { EscapeEmpty(); }
  }

  lemma EscapeEmpty()
    ensures Escape("") == ""
  {
  }

  lemma EscapeStep(v: string, i: nat)
    requires i < |v|
    ensures Escape(v[i..]) == (if Special(v[i]) then [ESCAPE, v[i]] else [v[i]]) + Escape(v[i + 1..])
  {
    assert v[i..][0] == v[i] && v[i..][1..] == v[i + 1..];
  }

  // text LIKE pattern ESCAPE '\'. A trailing lone escape matches nothing.
  predicate Like(pattern: string, text: string)
    decreases |pattern| + |text|
  {
    if pattern == "" then text == ""
    else if pattern[0] == ESCAPE then
      |pattern| >= 2 && text != "" && text[0] == pattern[1] && Like(pattern[2..], text[1..])
    else if pattern[0] == '%' then Like(pattern[1..], text) || (text != "" && Like(pattern, text[1..]))
    else text != "" && (pattern[0] == '_' || text[0] == pattern[0]) && Like(pattern[1..], text[1..])
  }

  // The value occurs in the text.
  ghost predicate Contains(text: string, v: string) {
    exists i :: 0 <= i <= |text| && v <= text[i..]
  }

  // '%' alone matches every text.
  lemma {:induction false} PercentMatchesAll(text: string)
    ensures Like("%", text)
  {
    if text != "" {
      PercentMatchesAll(text[1..]);
    } else {
      assert Like("%"[1..], text);
    }
  }

  // An escaped value, then '%', matches exactly the texts that start with the value.
  lemma {:induction false} EscapedIsLiteral(v: string, text: string)
    ensures Like(Escape(v) + "%", text) <==> v <= text
    decreases |v|
  {
    if v == "" {
      assert Escape(v) + "%" == "%";
      PercentMatchesAll(text);
    } else {
      var p := Escape(v) + "%";
      var rest := Escape(v[1..]) + "%";
      if Special(v[0]) {
        assert p[0] == ESCAPE && p[1] == v[0] && p[2..] == rest;
      } else {
        assert p[0] == v[0] && p[1..] == rest;
      }
      if text != "" {
        EscapedIsLiteral(v[1..], text[1..]);
        assert v <= text <==> v[0] == text[0] && v[1..] <= text[1..];
      }
    }
  }

  // A leading '%' matches where some suffix does.
  lemma {:induction false} LeadingPercent(p: string, text: string)
    ensures Like("%" + p, text) <==> exists i :: 0 <= i <= |text| && Like(p, text[i..])
    decreases |text|
  {
    var q := "%" + p;
    assert q[0] == '%' && q[1..] == p;
    assert text[0..] == text;
    if text != "" {
      LeadingPercent(p, text[1..]);
      assert forall i :: 0 <= i < |text| ==> text[1..][i..] == text[i + 1..];
      if Like(q, text[1..]) {
        var i :| 0 <= i <= |text[1..]| && Like(p, text[1..][i..]);
        assert Like(p, text[i + 1..]);
      }
      if exists i :: 0 <= i <= |text| && Like(p, text[i..]) {
        var i :| 0 <= i <= |text| && Like(p, text[i..]);
        if i > 0 {
          assert Like(p, text[1..][i - 1..]);
        }
      }
    }
  }

  // The search finds a text exactly when the value occurs in it, whatever wildcards or
  // backslashes the value has.
  lemma SearchIsContains(v: string, text: string)
    ensures Like("%" + (Escape(v) + "%"), text) <==> Contains(text, v)
  {
    LeadingPercent(Escape(v) + "%", text);
    forall i | 0 <= i <= |text| ensures Like(Escape(v) + "%", text[i..]) <==> v <= text[i..] {
      EscapedIsLiteral(v, text[i..]);
    }
    if Contains(text, v) {
      var i :| 0 <= i <= |text| && v <= text[i..];
      assert Like(Escape(v) + "%", text[i..]);
    }
  }
}
