/** The chat messages the browser works on, as far as tool calls are concerned. */
module ChatMessages {
  import opened Options

  const HIDDEN_PREFIX := "do-not-render-"

  /** A tool call; `id` is missing when it is not a string. */
  datatype Call = Call(id: Option<string>, name: string, args: string)

  datatype Body = Ai(calls: seq<Call>) | Tool(callId: string, status: Option<string>) | Other(kind: string)

  /** A message; an empty `id` stands for a missing one, which the browser treats alike. */
  datatype Message = Message(id: string, body: Body, content: string)

  /** The white space that `trim` removes. */
  predicate IsSpace(c: char) {
    var k := c as int;
    || 0x9 <= k <= 0xd || 0x2000 <= k <= 0x200a
    || k in {0x20, 0xa0, 0x1680, 0x2028, 0x2029, 0x202f, 0x205f, 0x3000, 0xfeff}
  }

  predicate Blank(s: string) {
    forall i :: 0 <= i < |s| ==> IsSpace(s[i])
  }

  /** A call with an id one can refer to. */
  predicate Usable(call: Call) {
    call.id.Some? && !Blank(call.id.value)
  }

  /** White space and line ends of the ECMAScript standard: tab, line feed, vertical tab, form feed,
      carriage return, space, no-break space, and the Unicode space separators and line ends. */
  const SPACES := "\t\n\U{b}\U{c}\r \U{a0}\U{1680}\U{2000}\U{2001}\U{2002}\U{2003}\U{2004}\U{2005}"
                  + "\U{2006}\U{2007}\U{2008}\U{2009}\U{200a}\U{2028}\U{2029}\U{202f}\U{205f}\U{3000}\U{feff}"

  lemma SpacesAreListed(c: char)
    ensures IsSpace(c) <==> c in SPACES
  {
    assert SPACES == ['\t', '\n', '\U{b}', '\U{c}', '\r', ' ', '\U{a0}', '\U{1680}', '\U{2000}', '\U{2001}',
                      '\U{2002}', '\U{2003}', '\U{2004}', '\U{2005}', '\U{2006}', '\U{2007}', '\U{2008}',
                      '\U{2009}', '\U{200a}', '\U{2028}', '\U{2029}', '\U{202f}', '\U{205f}', '\U{3000}',
                      '\U{feff}'];
  }

  /** What is left without the white space at the start, and at the end. */
  function TrimStart(s: string): string {
    if s != "" && s[0] in SPACES then TrimStart(s[1..]) else s
  }

  function TrimEnd(s: string): string {
    if s != "" && s[|s| - 1] in SPACES then TrimEnd(s[..|s| - 1]) else s
  }

  /** A text is blank exactly if trimming leaves nothing of it. */
  lemma {:induction false} BlankIffTrimmedAway(s: string)
    ensures Blank(s) <==> TrimEnd(TrimStart(s)) == ""
    decreases |s|
  {
    if s != "" {
      SpacesAreListed(s[0]);
      if s[0] in SPACES {
        assert s == [s[0]] + s[1..];
        BlankIffTrimmedAway(s[1..]);
      } else {
        FirstStays(s);
      }
    }
  }

  lemma {:induction false} FirstStays(s: string)
    requires s != "" && s[0] !in SPACES
    ensures TrimEnd(s) != "" && TrimEnd(s)[0] == s[0]
    decreases |s|
  {
    if s[|s| - 1] in SPACES { FirstStays(s[..|s| - 1]); }
  }
}
