/**
 * The small part of the browser's document model that the page script touches:
 * an element's class list (a DOMTokenList), the string form that a boolean takes
 * when it is written into an attribute, and optional elements.
 */
module Dom {

  /** An element that may be absent from the page (`querySelector` returning null). */
  datatype Option<+T> = None | Some(value: T)

  /**
   * A class list seen as the set of its tokens. `Add`, `Remove`, `Toggle` and
   * `ToggleForce` are used with constant tokens only, which the argument check of the
   * class-list methods accepts; `TryAdd` is `add` with that check.
   */
  type ClassList = set<string>

  /** `classList.add(c)` */
  function Add(cls: ClassList, c: string): (r: ClassList)
    ensures c in r
    ensures forall d :: d != c ==> (d in r <==> d in cls)
  {
    cls + {c}
  }

  /** ASCII whitespace as the DOM standard defines it: tab, line feed, form feed, carriage return, space. */
  predicate AsciiWhitespace(c: char)
  {
    c == '\t' || c == '\n' || c == '\U{000C}' || c == '\r' || c == ' '
  }

  /** A token the class-list methods accept: non-empty and free of ASCII whitespace. */
  predicate ValidToken(t: string)
  {
    t != "" && forall i :: 0 <= i < |t| ==> !AsciiWhitespace(t[i])
  }

  /**
   * `classList.add(c)` for a token that is not a constant: `None` when the call throws
   * (a `SyntaxError` for the empty token, an `InvalidCharacterError` for one holding
   * ASCII whitespace), in which case the list is not touched.
   */
  function TryAdd(cls: ClassList, c: string): (r: Option<ClassList>)
    ensures r.Some? <==> ValidToken(c)
    ensures r.Some? ==> c in r.value && r.value - {c} == cls - {c}
  {
    if ValidToken(c) then Some(Add(cls, c)) else None
  }

  /** `classList.remove(c)` */
  function Remove(cls: ClassList, c: string): (r: ClassList)
    ensures c !in r
    ensures forall d :: d != c ==> (d in r <==> d in cls)
  {
    cls - {c}
  }

  /** `classList.toggle(c)`: the new list; the call itself returns `c in r`. */
  function Toggle(cls: ClassList, c: string): (r: ClassList)
    ensures c in r <==> c !in cls
    ensures forall d :: d != c ==> (d in r <==> d in cls)
  {
    if c in cls then cls - {c} else cls + {c}
  }

  /** `classList.toggle(c, force)`: adds `c` when `force` holds, removes it otherwise. */
  function ToggleForce(cls: ClassList, c: string, force: bool): (r: ClassList)
    ensures c in r <==> force
    ensures forall d :: d != c ==> (d in r <==> d in cls)
  {
    if force then Add(cls, c) else Remove(cls, c)
  }

  lemma ToggleTwice(cls: ClassList, c: string)
    ensures Toggle(Toggle(cls, c), c) == cls
  {
  }

  /** The text `setAttribute(name, b)` stores for a boolean `b`. */
  function BoolText(b: bool): (s: string)
    ensures s == "true" || s == "false"
    ensures (s == "true") == b
  {
    if b then "true" else "false"
  }
}
