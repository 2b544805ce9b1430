/**
  Text helpers shared by the hospital and the course catalogue: ASCII lower-casing, as
  `str.lower()` behaves on ASCII text, and the `input(...) or current` idiom by which a
  blank answer keeps the current value.
 */
module Text {
  import opened Wrappers

  /** One character lower-cased: 'A'..'Z' map to 'a'..'z', every other character is kept. */
  function LowerChar(c: char): (d: char)
    ensures 'A' <= c <= 'Z' ==> d as int == c as int + 32
    ensures !('A' <= c <= 'Z') ==> d == c
    ensures !('A' <= d <= 'Z')
  {
    if 'A' <= c <= 'Z' then (c as int + 32) as char else c
  }

  /** `s.lower()` on ASCII text: same length, each character lower-cased. */
  function Lower(s: string): (r: string)
    ensures |r| == |s|
    ensures forall i :: 0 <= i < |s| ==> r[i] == LowerChar(s[i])
  {
    seq(|s|, i requires 0 <= i < |s| => LowerChar(s[i]))
  }

  /** Lower-casing twice is lower-casing once. */
  lemma LowerIdempotent(s: string)
    ensures Lower(Lower(s)) == Lower(s)
  {
  }

  /** Positions typed in any case reach the doctor and nurse branches of the staff dispatch. */
  lemma LowerExamples()
    ensures Lower("Doctor") == "doctor" && Lower("NURSE") == "nurse"
  {
  }

  /** `x or default`: a blank answer keeps the current text. */
  function OrKeep(answer: string, current: string): (r: string)
    ensures answer == "" ==> r == current
    ensures answer != "" ==> r == answer
  {
    if answer == "" then current else answer
  }

  /** `input() or current` for an optional field: a blank answer keeps what is there. */
  function OrKeepOpt(answer: string, current: Option<string>): (r: Option<string>)
    ensures answer == "" ==> r == current
    ensures answer != "" ==> r == Some(answer)
  {
    if answer == "" then current else Some(answer)
  }
}
