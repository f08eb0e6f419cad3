/** String helpers. Go's `strings.ToLower` folds full Unicode; this model
    folds ASCII capitals only. */
module Text {

  /** One character, lower-cased when it is an ASCII capital. */
  function LowerChar(c: char): char
  {
    if 'A' <= c <= 'Z' then (c as int + 32) as char else c
  }

  /** `strings.ToLower` on ASCII: every character is lower-cased in place. */
  function ToLower(s: string): string
  {
    if s == [] then [] else [LowerChar(s[0])] + ToLower(s[1..])
  }

  /** Lower-casing keeps the length and maps each character on its own. */
  lemma {:induction false} ToLowerAt(s: string)
    ensures |ToLower(s)| == |s|
    ensures forall i | 0 <= i < |s| :: ToLower(s)[i] == LowerChar(s[i])
  {
    if s != [] {
      ToLowerAt(s[1..]);
    }
  }

  /** A string that lower-casing leaves unchanged. */
  predicate IsLower(s: string)
  {
    ToLower(s) == s
  }

  /** Lower-casing twice is lower-casing once. */
  lemma ToLowerIdempotent(s: string)
    ensures ToLower(ToLower(s)) == ToLower(s)
    ensures IsLower(ToLower(s))
  {
    var t := ToLower(s);
    ToLowerAt(s);
    ToLowerAt(t);
    assert forall i | 0 <= i < |t| :: LowerChar(t[i]) == t[i];
    assert ToLower(t) == t;
  }

  /** Lower-casing distributes over concatenation. */
  lemma ToLowerConcat(a: string, b: string)
    ensures ToLower(a + b) == ToLower(a) + ToLower(b)
  {
    ToLowerAt(a);
    ToLowerAt(b);
    ToLowerAt(a + b);
    assert forall i | 0 <= i < |a + b| :: ToLower(a + b)[i] == (ToLower(a) + ToLower(b))[i];
  }
}
