/**
 * The Set-Cookie header grammar of RFC 6265 section 4.1 as far as the
 * backend's hand-written headers use it: a cookie-pair "name=value" followed
 * by attributes, each introduced by "; ". Render writes a header from its
 * parts; Parse reads one back.
 */
module CookieHeader {
  import opened Wrappers
  import JavaText

  datatype SetCookie = SetCookie(name: string, value: string, attributes: seq<string>)

  /** What RFC 6265 section 4.1.1 lets appear: no ';' anywhere, no '=' in the name. */
  predicate WellFormed(c: SetCookie)
  {
    '=' !in c.name && ';' !in c.name && ';' !in c.value
    && forall k :: 0 <= k < |c.attributes| ==> ';' !in c.attributes[k]
  }

  function RenderAttributes(attributes: seq<string>): string
  {
    if |attributes| == 0 then "" else "; " + attributes[0] + RenderAttributes(attributes[1..])
  }

  function Render(c: SetCookie): string
  {
    c.name + "=" + c.value + RenderAttributes(c.attributes)
  }

  /** Every piece after the cookie-pair must start with the single space of "; ". */
  function ParseAttributes(pieces: seq<string>): Option<seq<string>>
  {
    if |pieces| == 0 then Some([])
    else if |pieces[0]| == 0 || pieces[0][0] != ' ' then None
    else match ParseAttributes(pieces[1..])
      case None => None
      case Some(rest) => Some([pieces[0][1..]] + rest)
  }

  function Parse(header: string): Option<SetCookie>
  {
    var pieces := JavaText.RawSplit(header, ';');
    var pair := pieces[0];
    var eq := JavaText.IndexOf(pair, '=');
    if eq == |pair| then None
    else match ParseAttributes(pieces[1..])
      case None => None
      case Some(attributes) => Some(SetCookie(pair[..eq], pair[eq + 1..], attributes))
  }

  function Spaced(attributes: seq<string>): seq<string>
  {
    if |attributes| == 0 then [] else [" " + attributes[0]] + Spaced(attributes[1..])
  }

  lemma {:induction false} SplitRenderedAttributes(pair: string, attributes: seq<string>)
    requires ';' !in pair
    requires forall k :: 0 <= k < |attributes| ==> ';' !in attributes[k]
    ensures JavaText.RawSplit(pair + RenderAttributes(attributes), ';') == [pair] + Spaced(attributes)
    decreases |attributes|
  {
    if |attributes| == 0 {
      assert pair + RenderAttributes(attributes) == pair;
    } else {
      var next := " " + attributes[0];
      var tail := RenderAttributes(attributes[1..]);
      assert ';' !in next by {
        assert next == [' '] + attributes[0];
      }
      assert RenderAttributes(attributes) == "; " + attributes[0] + tail;
      assert pair + RenderAttributes(attributes) == pair + [';'] + (next + tail);
      JavaText.RawSplitPrefix(pair, ';', next + tail);
      SplitRenderedAttributes(next, attributes[1..]);
    }
  }

  lemma {:induction false} ParseSpaced(attributes: seq<string>)
    ensures ParseAttributes(Spaced(attributes)) == Some(attributes)
  {
    if |attributes| > 0 {
      var pieces := Spaced(attributes);
      ParseSpaced(attributes[1..]);
      assert pieces[0] == " " + attributes[0];
      assert pieces[1..] == Spaced(attributes[1..]);
      assert pieces[0][1..] == attributes[0];
      assert ParseAttributes(pieces) == Some([attributes[0]] + attributes[1..]);
      assert [attributes[0]] + attributes[1..] == attributes;
    }
  }

  /** Reading back a rendered well-formed header recovers its name, value and attributes. */
  lemma ParseRender(c: SetCookie)
    requires WellFormed(c)
    ensures Parse(Render(c)) == Some(c)
  {
    var pair := c.name + "=" + c.value;
    assert ';' !in pair by {
      forall k | 0 <= k < |pair| ensures pair[k] != ';' {
        if k < |c.name| {
          assert pair[k] == c.name[k];
        } else if k > |c.name| {
          assert pair[k] == c.value[k - |c.name| - 1];
        }
      }
    }
    assert Render(c) == pair + RenderAttributes(c.attributes);
    SplitRenderedAttributes(pair, c.attributes);
    ParseFromPieces(Render(c), c);
  }

  /** A header that splits into the cookie-pair and the spaced attributes is read back as that cookie. */
  lemma ParseFromPieces(header: string, c: SetCookie)
    requires '=' !in c.name
    requires JavaText.RawSplit(header, ';') == [c.name + "=" + c.value] + Spaced(c.attributes)
    ensures Parse(header) == Some(c)
  {
    var pair := c.name + "=" + c.value;
    var pieces := JavaText.RawSplit(header, ';');
    assert pieces[0] == pair && pieces[1..] == Spaced(c.attributes);
    ParseSpaced(c.attributes);
    JavaText.IndexOfIs(pair, '=', |c.name|);
    assert pair[..|c.name|] == c.name && pair[|c.name| + 1..] == c.value;
  }
}
