/** The part of the regexp syntax that wildcard patterns are rewritten into: its text, its trees and its languages. */
module Regexp {
  import opened Text

  datatype Regex =
    | Empty
    | Lit(c: char)
    | Any
    | Star(body: Regex)
    | Opt(body: Regex)
    | Cat(first: Regex, second: Regex)

  /** `s` as a whole is in the language of `r`; the dot takes every character, newlines too (flag s). */
  predicate Matches(r: Regex, s: string)
    decreases r, |s|
  {
    match r
    case Empty => s == ""
    case Lit(c) => s == [c]
    case Any => |s| == 1
    case Star(body) => s == "" || exists k :: 0 < k <= |s| && Matches(body, s[..k]) && Matches(r, s[k..])
    case Opt(body) => s == "" || Matches(body, s)
    case Cat(first, second) => exists k :: 0 <= k <= |s| && Matches(first, s[..k]) && Matches(second, s[k..])
  }

  /** Characters with a meaning of their own outside a character class. */
  const META: set<char> := {'\\', '.', '+', '*', '?', '(', ')', '|', '[', ']', '{', '}', '^', '$'}

  const REPETITION: set<char> := {'*', '?', '+'}

  /** A tree read from the front of a text, and the text after it. */
  datatype Read = Read(regex: Regex, rest: string)

  /** An escaped character, a dot, a group or a plain character. */
  function ReadAtom(text: string): (r: Option<Read>)
    requires text != ""
    ensures r.Some? ==> |r.value.rest| < |text|
    decreases |text|, 0
  {
    if text[0] == '\\' then
      if |text| > 1 && text[1] in META then Some(Read(Lit(text[1]), text[2..])) else None
    else if text[0] == '.' then Some(Read(Any, text[1..]))
    else if text[0] == '(' then
      match ReadCat(text[1..])
      case None => None
      case Some(group) => if group.rest != "" && group.rest[0] == ')' then Some(Read(group.regex, group.rest[1..])) else None
    else if text[0] in META then None
    else Some(Read(Lit(text[0]), text[1..]))
  }

  /** At most one repetition mark; lazy and nested repetitions are outside this part of the syntax. */
  function ReadRepetition(atom: Read): (r: Option<Read>)
    ensures r.Some? ==> |r.value.rest| <= |atom.rest|
  {
    var rest := atom.rest;
    if rest == "" || rest[0] !in REPETITION then Some(atom)
    else if rest[0] == '+' || (|rest| > 1 && rest[1] in REPETITION) then None
    else Some(Read(if rest[0] == '*' then Star(atom.regex) else Opt(atom.regex), rest[1..]))
  }

  /** Items one after the other, up to a closing parenthesis or the end. */
  function ReadCat(text: string): (r: Option<Read>)
    ensures r.Some? ==> |r.value.rest| <= |text|
    decreases |text|, 1
  {
    if text == "" || text[0] == ')' then Some(Read(Empty, text))
    else
      match ReadAtom(text)
      case None => None
      case Some(atom) =>
        match ReadRepetition(atom)
        case None => None
        case Some(item) =>
          match ReadCat(item.rest)
          case None => None
          case Some(more) => Some(Read(Cat(item.regex, more.regex), more.rest))
  }

  const PREFIX := "(?s)^"
  const SUFFIX := "$"

  /** The tree of an anchored text, whose match is a match of the whole input. */
  function Compile(text: string): Option<Regex> {
    if HasPrefix(text, PREFIX) && HasSuffix(text, SUFFIX) && |text| >= |PREFIX| + |SUFFIX| then
      match ReadCat(text[|PREFIX|..|text| - |SUFFIX|])
      case None => None
      case Some(r) => if r.rest == "" then Some(r.regex) else None
    else None
  }
}
