/** The optional value the other modules share. */
module Wrappers {
  datatype Option<+T> = None | Some(value: T)
}

/** Blank text and the text between blanks. */
module Texts {
  predicate Blank(c: char) { c in {' ', '\t', '\n', '\r'} }

  /** The text without the blanks around it. */
  function Trimmed(text: string): (trimmed: string)
    ensures |trimmed| <= |text|
    ensures trimmed != "" ==> !Blank(trimmed[0]) && !Blank(trimmed[|trimmed| - 1])
    decreases |text|
  {
    if text == "" then ""
    else if Blank(text[0]) then Trimmed(text[1..])
    else if Blank(text[|text| - 1]) then Trimmed(text[..|text| - 1])
    else text
  }

  predicate AllBlank(text: string) { forall i :: 0 <= i < |text| ==> Blank(text[i]) }

  /** What is left of a text between blanks only. */
  predicate Within(text: string, inner: string, from: nat, to: nat) {
    from <= to <= |text| && inner == text[from..to] && AllBlank(text[..from]) && AllBlank(text[to..])
  }

  lemma WithinMore(text: string, inner: string, from: nat, to: nat, blank: char)
    requires Within(text, inner, from, to) && Blank(blank)
    ensures Within([blank] + text, inner, from + 1, to + 1) && Within(text + [blank], inner, from, to)
  {
    hide Blank;
    var first, last := [blank] + text, text + [blank];
    assert first[from + 1..to + 1] == text[from..to] && first[to + 1..] == text[to..];
    assert first[..from + 1] == [blank] + text[..from];
    assert last[from..to] == text[from..to] && last[..from] == text[..from];
    assert last[to..] == text[to..] + [blank];
  }

  /** Trimming takes off blanks at both ends and nothing else. */
  lemma {:induction false} TrimmedWithin(text: string) returns (from: nat, to: nat)
    ensures Within(text, Trimmed(text), from, to)
    decreases |text|
  {
    hide Within, Blank;
    if text != "" && Blank(text[0]) {
      from, to := TrimmedWithin(text[1..]);
      WithinMore(text[1..], Trimmed(text), from, to, text[0]);
      assert text == [text[0]] + text[1..];
      from, to := from + 1, to + 1;
    } else if text != "" && Blank(text[|text| - 1]) {
      from, to := TrimmedWithin(text[..|text| - 1]);
      WithinMore(text[..|text| - 1], Trimmed(text), from, to, text[|text| - 1]);
      assert text == text[..|text| - 1] + [text[|text| - 1]];
    } else {
      from, to := 0, |text|;
      WithinItself(text);
    }
  }

  lemma WithinItself(text: string)
    ensures Within(text, text, 0, |text|)
  {
  }

  lemma {:induction false} TrimmedTwice(text: string)
    ensures Trimmed(Trimmed(text)) == Trimmed(text)
    decreases |text|
  {
    if text != "" && Blank(text[0]) { TrimmedTwice(text[1..]); }
    else if text != "" && Blank(text[|text| - 1]) { TrimmedTwice(text[..|text| - 1]); }
  }

  /** Byte by byte, a text before those it begins. */
  predicate Sooner(a: string, b: string) {
    b != "" && (a == "" || a[0] < b[0] || (a[0] == b[0] && Sooner(a[1..], b[1..])))
  }

  lemma {:induction false} SoonerIsTotalOrder(a: string, b: string, c: string)
    ensures !Sooner(a, a) && (Sooner(a, b) && Sooner(b, c) ==> Sooner(a, c)) && (Sooner(a, b) || a == b || Sooner(b, a))
  {
    if a != "" && b != "" && c != "" {
      SoonerIsTotalOrder(a[1..], b[1..], c[1..]);
      assert a == [a[0]] + a[1..] && b == [b[0]] + b[1..];
    } else if a != "" && b != "" {
      SoonerIsTotalOrder(a[1..], b[1..], c);
      assert a == [a[0]] + a[1..] && b == [b[0]] + b[1..];
    } else if a != "" {
      SoonerIsTotalOrder(a[1..], b, c);
    }
  }

  /** Texts of one length come first by their beginnings and then by what follows. */
  lemma {:induction false} SoonerJoined(a: string, b: string, rest: string, rest': string)
    requires |a| == |b|
    ensures Sooner(a + rest, b + rest') <==> Sooner(a, b) || (a == b && Sooner(rest, rest'))
  {
    if a == "" {
      assert a + rest == rest && b + rest' == rest';
    } else {
      SoonerJoined(a[1..], b[1..], rest, rest');
      assert (a + rest)[1..] == a[1..] + rest && (b + rest')[1..] == b[1..] + rest';
      assert a == [a[0]] + a[1..] && b == [b[0]] + b[1..];
    }
  }

  /** The first of some names. */
  method FirstOf(names: set<string>) returns (first: string)
    requires names != {}
    ensures first in names && forall name :: name in names ==> name == first || Sooner(first, name)
  {
    first :| first in names;
    var left := names - {first};
    while left != {}
      invariant left <= names && first in names
      invariant forall name :: name in names && name !in left ==> name == first || Sooner(first, name)
      decreases |left|
    {
      var next :| next in left;
      left := left - {next};
      SoonerIsTotalOrder(first, next, next);
      if Sooner(next, first) {
        forall name | name in names && name !in left && name != next ensures Sooner(next, name) {
          SoonerIsTotalOrder(next, first, name);
        }
        first := next;
      }
    }
  }
}
