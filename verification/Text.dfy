/** Trimming and normalisation of operator-provided text (src/agents/types.rs:696-702,
    src/agents/service.rs:970-973). */
module Text {
  import opened Basics

  /** The Unicode White_Space property. */
  predicate IsSpace(c: char) {
    var n := c as int;
    || 9 <= n <= 13 || n == 0x20 || n == 0x85 || n == 0xA0 || n == 0x1680 || 0x2000 <= n <= 0x200A
    || n == 0x2028 || n == 0x2029 || n == 0x202F || n == 0x205F || n == 0x3000
  }

  function TrimLeft(s: string): string {
    if s != [] && IsSpace(s[0]) then TrimLeft(s[1..]) else s
  }

  function TrimRight(s: string): string {
    if s != [] && IsSpace(s[|s| - 1]) then TrimRight(s[..|s| - 1]) else s
  }

  function Trim(s: string): string {
    TrimRight(TrimLeft(s))
  }

  /** Text with no space at either end. */
  predicate Trimmed(s: string) {
    s == [] || (!IsSpace(s[0]) && !IsSpace(s[|s| - 1]))
  }

  function NormalizeText(s: string): Option<string> {
    if Trim(s) == [] then None else Some(Trim(s))
  }

  function Normalize(o: Option<string>): Option<string> {
    if o.None? then None else NormalizeText(o.value)
  }

  /** What normalisation leaves alone. */
  predicate Normal(o: Option<string>) {
    o.Some? ==> o.value != [] && Trimmed(o.value)
  }

  /** A fixed text of the program. Its wording is left open: all that matters is that it is not
      empty and has no space at either end. */
  type Phrase = s: string | s != [] && Trimmed(s) witness "x"

  lemma {:induction false} TrimLeftResult(s: string)
    ensures TrimLeft(s) == [] || !IsSpace(TrimLeft(s)[0])
    ensures |TrimLeft(s)| <= |s| && TrimLeft(s) == s[|s| - |TrimLeft(s)|..]
  {
    if s != [] && IsSpace(s[0]) {
      TrimLeftResult(s[1..]);
    }
  }

  lemma {:induction false} TrimRightResult(s: string)
    ensures TrimRight(s) == [] || !IsSpace(TrimRight(s)[|TrimRight(s)| - 1])
    ensures |TrimRight(s)| <= |s| && TrimRight(s) == s[..|TrimRight(s)|]
  {
    if s != [] && IsSpace(s[|s| - 1]) {
      TrimRightResult(s[..|s| - 1]);
    }
  }

  lemma TrimResult(s: string)
    ensures Trimmed(Trim(s))
    ensures Trimmed(s) <==> Trim(s) == s
  {
    TrimLeftResult(s);
    TrimRightResult(TrimLeft(s));
  }

  /** Normalised text is normal, and normalisation changes exactly the text that is not. */
  lemma NormalizeResult(o: Option<string>)
    ensures Normal(Normalize(o))
    ensures Normal(o) <==> Normalize(o) == o
  {
    if o.Some? {
      TrimResult(o.value);
    }
  }

  ghost predicate AllSpace(s: string) {
    forall c :: c in s ==> IsSpace(c)
  }

  lemma {:induction false} TrimLeftTakesSpaces(s: string) returns (i: nat)
    ensures i <= |s| && TrimLeft(s) == s[i..] && AllSpace(s[..i])
  {
    i := 0;
    if s != [] && IsSpace(s[0]) {
      i := TrimLeftTakesSpaces(s[1..]);
      assert s[..i + 1] == [s[0]] + s[1..][..i] && s[i + 1..] == s[1..][i..];
      i := i + 1;
    }
  }

  lemma {:induction false} TrimRightTakesSpaces(s: string) returns (j: nat)
    ensures j <= |s| && TrimRight(s) == s[..j] && AllSpace(s[j..])
  {
    j := |s|;
    if s != [] && IsSpace(s[|s| - 1]) {
      var last := |s| - 1;
      j := TrimRightTakesSpaces(s[..last]);
      assert s[j..] == s[..last][j..] + [s[last]];
    }
  }

  /** Trimming takes off the spaces at both ends and nothing else, and text is blank exactly when it is
      all spaces. */
  lemma TrimTakesSpacesOnly(s: string) returns (i: nat, j: nat)
    ensures i <= j <= |s| && Trim(s) == s[i..j] && AllSpace(s[..i]) && AllSpace(s[j..])
    ensures NormalizeText(s).None? <==> AllSpace(s)
  {
    i := TrimLeftTakesSpaces(s);
    var k := TrimRightTakesSpaces(s[i..]);
    j := i + k;
    assert s[j..] == s[i..][k..] && s[i..j] == s[i..][..k];
    TrimResult(s);
    assert s == s[..i] + s[i..j] + s[j..];
    if Trim(s) != [] {
      assert Trim(s)[0] in s;
    }
  }
}
