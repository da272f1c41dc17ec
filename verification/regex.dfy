/** The regular-expression engine at its boundary.

    The in-memory broker compiles every subscription name with `Regex::new`
    and later asks the compiled expression whether it occurs anywhere in a
    published channel name (`captures(..).is_some()`, an unanchored search).
    The model never looks inside the engine: it is a pair of total functions,
    and every general property of the broker holds for every engine. */
module Regex {

  /** Which pattern texts compile, and whether a compiled pattern finds a
      match anywhere in a text. A compiled expression is identified with its
      pattern text, since compiling the same text twice gives the same
      expression. */
  datatype Engine = Engine(compiles: string -> bool, finds: (string, string) -> bool)

  /** Characters with a special meaning in the regular-expression syntax
      (the set the engine escapes when quoting a literal). */
  predicate IsMeta(c: char) {
    c in "\\.+*?()|[]{}^$#&-~"
  }

  /** A pattern made only of ordinary characters: it denotes itself. */
  predicate IsLiteral(p: string) {
    forall i | 0 <= i < |p| :: !IsMeta(p[i])
  }

  predicate IsPrefix(p: string, s: string) {
    |p| <= |s| && s[..|p|] == p
  }

  /** Unanchored search of the literal `p` in `s`, scanning start positions
      from left to right. */
  predicate Contains(p: string, s: string)
    decreases |s|
  {
    IsPrefix(p, s) || (|s| > 0 && Contains(p, s[1..]))
  }

  /** `p` occurs in `s` as the contiguous slice starting at offset `i`. */
  predicate OccursAt(p: string, s: string, i: int) {
    0 <= i && i + |p| <= |s| && s[i..i + |p|] == p
  }

  /** `Contains` finds exactly the occurrences of `p` as a contiguous slice
      of `s`, at any offset. */
  lemma {:induction false} ContainsIffOccurs(p: string, s: string)
    ensures Contains(p, s) <==> exists i :: OccursAt(p, s, i)
    decreases |s|
  {
    if IsPrefix(p, s) {
      assert OccursAt(p, s, 0);
    } else if |s| == 0 {
      assert forall i :: !OccursAt(p, s, i);
    } else {
      var t := s[1..];
      ContainsIffOccurs(p, t);
      if i :| OccursAt(p, s, i) {
        if i != 0 {
          assert t[i - 1..i - 1 + |p|] == s[i..i + |p|];
          assert OccursAt(p, t, i - 1);
        }
      }
      if i :| OccursAt(p, t, i) {
        assert s[i + 1..i + 1 + |p|] == t[i..i + |p|];
        assert OccursAt(p, s, i + 1);
      }
    }
  }

  /** A non-empty literal whose first character never appears in `s` is
      not found in `s`. */
  lemma {:induction false} FirstCharAbsent(p: string, s: string)
    requires |p| > 0
    requires forall i | 0 <= i < |s| :: s[i] != p[0]
    ensures !Contains(p, s)
    decreases |s|
  {
    if |s| > 0 {
      assert !IsPrefix(p, s) by {
        if |p| <= |s| {
          assert s[..|p|][0] == s[0];
        }
      }
      FirstCharAbsent(p, s[1..]);
    }
  }

  /** The engine restricted to literal patterns: a pattern without special
      characters compiles, and a compiled literal is found wherever it occurs
      as a substring. On such patterns it agrees with a full
      regular-expression engine; every other pattern is refused. */
  const Literal: Engine := Engine(IsLiteral, Contains)
}
