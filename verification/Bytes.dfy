/** Bytes and the character classes of the HTTP parser, as compiled in strict mode.
    A byte is a `char`; only codes below 256 occur in the program, and nothing proved here
    depends on that bound. */
module Bytes {

  const CR: char := '\r'
  const LF: char := '\n'
  const CRLF: string := "\r\n"

  predicate IsNum(c: char) { '0' <= c <= '9' }

  predicate IsAlpha(c: char) { 'a' <= c <= 'z' || 'A' <= c <= 'Z' }

  predicate IsAlphaNum(c: char) { IsAlpha(c) || IsNum(c) }

  predicate IsHex(c: char) { IsNum(c) || 'a' <= c <= 'f' || 'A' <= c <= 'F' }

  predicate IsMark(c: char) {
    c == '-' || c == '_' || c == '.' || c == '!' || c == '~' || c == '*' || c == '\'' || c == '(' || c == ')'
  }

  predicate IsUserinfo(c: char) {
    IsAlphaNum(c) || IsMark(c) || c == '%' || c == ';' || c == ':' || c == '&' || c == '=' || c == '+' || c == '$'
      || c == ','
  }

  predicate IsHostChar(c: char) { IsAlphaNum(c) || c == '.' || c == '-' }

  /** Strict mode: the printable characters of ASCII except '#' and '?'. */
  predicate IsUrlChar(c: char) { '!' <= c <= '~' && c != '#' && c != '?' }

  /** A token character of section 2.2 of RFC 2616. */
  predicate IsToken(c: char) {
    IsAlphaNum(c) || c == '!' || ('#' <= c <= '\'') || c == '*' || c == '+' || c == '-' || c == '.'
    || c == '^' || c == '_' || c == '`' || c == '|' || c == '~'
  }

  /** ASCII lower-casing, which is what the token table does to a token character. */
  function Lower(c: char): char {
    if 'A' <= c <= 'Z' then (c as int + 32) as char else c
  }

  function LowerAll(s: string): (r: string)
    ensures |r| == |s|
    ensures forall i :: 0 <= i < |s| ==> r[i] == Lower(s[i])
  {
    seq(|s|, i requires 0 <= i < |s| => Lower(s[i]))
  }

  /** The LOWER macro: it sets bit 5 of any character, letter or not. */
  function SetBit5(c: char): char
    requires c as int < 256
  {
    if (c as int / 32) % 2 == 1 then c else (c as int + 32) as char
  }

  function DigitVal(c: char): nat
    requires IsNum(c)
  {
    c as int - '0' as int
  }

  /** The unhex table; -1 marks a character that is no digit. Only 128 of its 256 entries are
      initialised, so a character of code 128 or more reads as the digit 0. */
  function Unhex(c: char): (v: int)
    ensures -1 <= v < 16
  {
    if IsNum(c) then c as int - '0' as int
    else if 'a' <= c <= 'f' then c as int - 'a' as int + 10
    else if 'A' <= c <= 'F' then c as int - 'A' as int + 10
    else if c as int >= 128 then 0
    else -1
  }

  /** Against a lower-case letter or a dash, setting bit 5 matches what lower-casing matches,
      for every character but CR, which no caller of the macro compares. */
  lemma SetBit5Matches(c: char, w: char)
    requires c as int < 256 && c != CR
    requires 'a' <= w <= 'z' || w == '-'
    ensures SetBit5(c) == w <==> Lower(c) == w
  {
    if 'A' <= c <= 'Z' { assert SetBit5(c) == (c as int + 32) as char; }
  }
}
