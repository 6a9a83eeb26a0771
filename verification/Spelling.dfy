/**
 Names that are stripped and put into small or capital letters before they are compared, and which spellings of a
 name that recognises. Text is ASCII.
 */
module Spelling {

  // ---- As the programs compute it ----------------------------------------------------------------------------------

  function LowerChar(c: char): char { if 'A' <= c <= 'Z' then ((c as int) + 32) as char else c }

  function Lower(s: string): string { seq(|s|, i requires 0 <= i < |s| => LowerChar(s[i])) }

  function UpperChar(c: char): char { if 'a' <= c <= 'z' then ((c as int) - 32) as char else c }

  function Upper(s: string): string { seq(|s|, i requires 0 <= i < |s| => UpperChar(s[i])) }

  /** Tab, line feed, the two tabs and feeds after it, carriage return, the four separators and the space. */
  predicate Space(c: char) { '\t' <= c <= '\r' || '\U{1C}' <= c <= ' ' }

  function Strip(s: string): string {
    if s == "" then ""
    else if Space(s[0]) then Strip(s[1..])
    else if Space(s[|s| - 1]) then Strip(s[..|s| - 1])
    else s
  }

  function Canon(s: string): string { Lower(Strip(s)) }

  // ---- As a reader sees it -----------------------------------------------------------------------------------------

  /** The name stands at this place, letter by letter except for the case, and there is only blank space around it. */
  predicate SpelledAt(s: string, name: string, at: nat) {
    && at + |name| <= |s|
    && (forall k :: 0 <= k < |s| && (k < at || at + |name| <= k) ==> 9 <= s[k] as int <= 13 || 28 <= s[k] as int <= 32)
    && (forall k :: 0 <= k < |name| ==>
          || s[at + k] == name[k]
          || ('a' <= name[k] <= 'z' && s[at + k] as int + 32 == name[k] as int)
          || ('A' <= name[k] <= 'Z' && s[at + k] as int == name[k] as int + 32))
  }

  /** The text is a spelling of the name. */
  ghost predicate Spelled(s: string, name: string) { exists at: nat :: SpelledAt(s, name, at) }

  /** A name that does not begin or end with blank space. */
  predicate Trimmed(name: string) { name != "" ==> !Space(name[0]) && !Space(name[|name| - 1]) }

  /** What is stripped is blank space at both ends, and all of it. */
  lemma {:induction false} StripExactly(s: string) returns (at: nat)
    ensures at + |Strip(s)| <= |s| && Strip(s) == s[at..at + |Strip(s)|]
    ensures forall k :: 0 <= k < |s| && (k < at || at + |Strip(s)| <= k) ==> Space(s[k])
    ensures Trimmed(Strip(s))
  {
    at := 0;
    var n := |Strip(s)|;
    if s != "" && Space(s[0]) {
      var rest := StripExactly(s[1..]);
      at := rest + 1;
      assert s[1..][rest..rest + n] == s[at..at + n];
      assert forall k :: 0 < k < |s| ==> s[k] == s[1..][k - 1];
    } else if s != "" && Space(s[|s| - 1]) {
      var front := s[..|s| - 1];
      at := StripExactly(front);
      assert front[at..at + n] == s[at..at + n];
      assert forall k :: 0 <= k < |front| ==> s[k] == front[k];
    }
  }

  /** A trimmed name can only stand where stripping leaves something, and that is as long as the name. */
  lemma OnlyPlace(s: string, name: string, at: nat, from: nat, to: nat)
    requires SpelledAt(s, name, at) && Trimmed(name)
    requires from <= to <= |s| && (forall k :: 0 <= k < |s| && (k < from || to <= k) ==> Space(s[k]))
    requires from < to ==> !Space(s[from]) && !Space(s[to - 1])
    ensures to - from == |name| && (name != "" ==> at == from)
  {
    if name == "" {
      assert forall k :: 0 <= k < |s| ==> Space(s[k]);
    } else {
      assert !Space(s[at + 0]);
      assert !Space(s[at + (|name| - 1)]);
    }
  }

  /** One letter is a spelling of the other. */
  predicate SameLetter(c: char, d: char) {
    c == d || ('a' <= d <= 'z' && c as int + 32 == d as int) || ('A' <= d <= 'Z' && c as int == d as int + 32)
  }

  lemma LowerLetters(t: string, name: string)
    requires |t| == |name| && forall k :: 0 <= k < |name| ==> !('A' <= name[k] <= 'Z')
    ensures Lower(t) == name <==> forall k :: 0 <= k < |name| ==> SameLetter(t[k], name[k])
  {
    assert forall k :: 0 <= k < |name| ==> (Lower(t)[k] == name[k] <==> SameLetter(t[k], name[k]));
  }

  lemma UpperLetters(t: string, name: string)
    requires |t| == |name| && forall k :: 0 <= k < |name| ==> !('a' <= name[k] <= 'z')
    ensures Upper(t) == name <==> forall k :: 0 <= k < |name| ==> SameLetter(t[k], name[k])
  {
    assert forall k :: 0 <= k < |name| ==> (Upper(t)[k] == name[k] <==> SameLetter(t[k], name[k]));
  }

  /** What stands at the place, and that there is only blank space around it. */
  lemma SpelledThere(s: string, name: string, at: nat)
    requires at + |name| <= |s|
    ensures SpelledAt(s, name, at) <==>
      && (forall k :: 0 <= k < |s| && (k < at || at + |name| <= k) ==> Space(s[k]))
      && (forall k :: 0 <= k < |name| ==> SameLetter(s[at..at + |name|][k], name[k]))
  {
    var there := s[at..at + |name|];
    assert forall k :: 0 <= k < |name| ==> there[k] == s[at + k];
  }

  /** A text is a spelling exactly if what stripping leaves of it is one, letter by letter. */
  lemma SpelledStripped(s: string, name: string)
    requires Trimmed(name)
    ensures Spelled(s, name) <==>
      |Strip(s)| == |name| && forall k :: 0 <= k < |name| ==> SameLetter(Strip(s)[k], name[k])
  {
    var from := StripExactly(s);
    if Spelled(s, name) {
      var at: nat :| SpelledAt(s, name, at);
      OnlyPlace(s, name, at, from, from + |Strip(s)|);
      SpelledThere(s, name, at);
      assert name == "" || s[at..at + |name|] == Strip(s);
    }
    if |Strip(s)| == |name| {
      SpelledThere(s, name, from);
    }
  }

  /** Stripped and in small letters a text is a name exactly if it is a spelling of it. */
  lemma CanonExactly(s: string, name: string)
    requires Trimmed(name) && forall k :: 0 <= k < |name| ==> !('A' <= name[k] <= 'Z')
    ensures Canon(s) == name <==> Spelled(s, name)
  {
    SpelledStripped(s, name);
    if |Strip(s)| == |name| {
      LowerLetters(Strip(s), name);
    }
  }

  /** And the same in capital letters. */
  lemma CapitalsExactly(s: string, name: string)
    requires Trimmed(name) && forall k :: 0 <= k < |name| ==> !('a' <= name[k] <= 'z')
    ensures Upper(Strip(s)) == name <==> Spelled(s, name)
  {
    SpelledStripped(s, name);
    if |Strip(s)| == |name| {
      UpperLetters(Strip(s), name);
    }
  }
}
