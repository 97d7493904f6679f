/** HTML escaping of user text (escapeHtml) and the two fields of the fan card that use it. */
module Html {
  import opened Wrappers
  import opened Strings

  /** The four characters escapeHtml replaces. */
  predicate IsSpecial(c: char) {
    c == '&' || c == '<' || c == '>' || c == '"'
  }

  /** Does one of the four entities begin at position i of r? */
  predicate EntityAt(r: string, i: nat)
    requires i <= |r|
  {
    StartsWith(r[i..], "&amp;") || StartsWith(r[i..], "&lt;") ||
    StartsWith(r[i..], "&gt;") || StartsWith(r[i..], "&quot;")
  }

  /** The replacement of one character: its entity if it is special, itself otherwise. */
  function EscapeChar(c: char): (r: string)
    ensures |r| >= 1 && (r == [c] <==> !IsSpecial(c))
    ensures IsSpecial(c) ==> r[0] == '&' && EntityAt(r, 0)
    ensures forall i :: 0 <= i < |r| ==> r[i] != '<' && r[i] != '>' && r[i] != '"'
    ensures forall i :: 0 < i < |r| ==> r[i] != '&'
  {
    match c
    case '&' => "&amp;"
    case '<' => "&lt;"
    case '>' => "&gt;"
    case '"' => "&quot;"
    case _ => [c]
  }

  /** escapeHtml: every character mapped through EscapeChar, in order. */
  function Escape(s: string): (r: string)
    ensures |r| >= |s|
    ensures forall i :: 0 <= i < |r| ==> r[i] != '<' && r[i] != '>' && r[i] != '"'
  {
    if s == [] then [] else EscapeChar(s[0]) + Escape(s[1..])
  }

  /** The decoder that undoes Escape: the partner used to state that nothing is lost or reordered. */
  function Unescape(r: string): string
    decreases |r|
  {
    if r == [] then []
    else if StartsWith(r, "&amp;") then ['&'] + Unescape(r[5..])
    else if StartsWith(r, "&lt;") then ['<'] + Unescape(r[4..])
    else if StartsWith(r, "&gt;") then ['>'] + Unescape(r[4..])
    else if StartsWith(r, "&quot;") then ['"'] + Unescape(r[6..])
    else [r[0]] + Unescape(r[1..])
  }

  lemma StartsWithAt(r: string, p: string, k: nat)
    ensures k < |p| && StartsWith(r, p) ==> r[k] == p[k]
  {
    if k < |p| && StartsWith(r, p) {
      assert r[..|p|][k] == r[k];
    }
  }

  lemma UnescapePlain(c: char, rest: string)
    requires !IsSpecial(c)
    ensures Unescape([c] + rest) == [c] + Unescape(rest)
  {
    var r := [c] + rest;
    assert r[0] == c && r[1..] == rest;
    StartsWithAt(r, "&amp;", 0);
    StartsWithAt(r, "&lt;", 0);
    StartsWithAt(r, "&gt;", 0);
    StartsWithAt(r, "&quot;", 0);
  }

  lemma UnescapeAmp(rest: string)
    ensures Unescape("&amp;" + rest) == ['&'] + Unescape(rest)
  {
    var r := "&amp;" + rest;
    assert r[..5] == "&amp;" && r[5..] == rest;
  }

  lemma UnescapeLt(rest: string)
    ensures Unescape("&lt;" + rest) == ['<'] + Unescape(rest)
  {
    var r := "&lt;" + rest;
    assert r[..4] == "&lt;" && r[4..] == rest;
    assert r[1] == 'l';
    StartsWithAt(r, "&amp;", 1);
  }

  lemma UnescapeGt(rest: string)
    ensures Unescape("&gt;" + rest) == ['>'] + Unescape(rest)
  {
    var r := "&gt;" + rest;
    assert r[..4] == "&gt;" && r[4..] == rest;
    assert r[1] == 'g';
    StartsWithAt(r, "&amp;", 1);
    StartsWithAt(r, "&lt;", 1);
  }

  lemma UnescapeQuot(rest: string)
    ensures Unescape("&quot;" + rest) == ['"'] + Unescape(rest)
  {
    var r := "&quot;" + rest;
    assert r[..6] == "&quot;" && r[6..] == rest;
    assert r[1] == 'q';
    StartsWithAt(r, "&amp;", 1);
    StartsWithAt(r, "&lt;", 1);
    StartsWithAt(r, "&gt;", 1);
  }

  lemma UnescapeStep(c: char, rest: string)
    ensures Unescape(EscapeChar(c) + rest) == [c] + Unescape(rest)
  {
    match c
    case '&' => UnescapeAmp(rest);
    case '<' => UnescapeLt(rest);
    case '>' => UnescapeGt(rest);
    case '"' => UnescapeQuot(rest);
    case _ => UnescapePlain(c, rest);
  }

  /** Escaping loses nothing: decoding the escaped text gives back the original, character for character. */
  lemma {:induction false} UnescapeEscape(s: string)
    ensures Unescape(Escape(s)) == s
  {
    if s != [] {
      UnescapeStep(s[0], Escape(s[1..]));
      UnescapeEscape(s[1..]);
    }
  }

  /** Escape is injective: two different texts never render the same. */
  lemma EscapeInjective(a: string, b: string)
    requires Escape(a) == Escape(b)
    ensures a == b
  {
    UnescapeEscape(a);
    UnescapeEscape(b);
  }

  /** Every '&' of the output is the first character of one of the four entities. */
  lemma {:induction false} AmpersandsBeginEntities(s: string)
    ensures forall i :: 0 <= i < |Escape(s)| && Escape(s)[i] == '&' ==> EntityAt(Escape(s), i)
  {
    if s != [] {
      var x, y := EscapeChar(s[0]), Escape(s[1..]);
      AmpersandsBeginEntities(s[1..]);
      var r := x + y;
      assert Escape(s) == r;
      forall i | 0 <= i < |r| && r[i] == '&'
        ensures EntityAt(r, i)
      {
        if i < |x| {
          assert i == 0 && x[0] == '&';
          assert r[0..][..|x|] == x;
          if s[0] == '&' {
            assert StartsWith(r[0..], "&amp;");
          } else if s[0] == '<' {
            assert StartsWith(r[0..], "&lt;");
          } else if s[0] == '>' {
            assert StartsWith(r[0..], "&gt;");
          } else {
            assert StartsWith(r[0..], "&quot;");
          }
        } else {
          assert r[i..] == y[i - |x|..];
          assert y[i - |x|] == '&';
        }
      }
    }
  }

  /** escapeHtml distributes over concatenation. */
  lemma {:induction false} EscapeConcat(a: string, b: string)
    ensures Escape(a + b) == Escape(a) + Escape(b)
  {
    if a == [] {
      assert a + b == b;
    } else {
      assert (a + b)[0] == a[0];
      assert (a + b)[1..] == a[1..] + b;
      EscapeConcat(a[1..], b);
    }
  }

  /** Text without special characters is left as it is, and only such text is. */
  lemma {:induction false} EscapeIdentity(s: string)
    ensures Escape(s) == s <==> forall i :: 0 <= i < |s| ==> !IsSpecial(s[i])
  {
    if s != [] {
      EscapeIdentity(s[1..]);
      var x := EscapeChar(s[0]);
      if IsSpecial(s[0]) {
        assert |Escape(s)| > |s|;
      } else {
        assert x == [s[0]];
        assert s == [s[0]] + s[1..];
        if Escape(s) == s {
          assert Escape(s[1..]) == s[1..];
        }
        forall i | 0 <= i < |s[1..]| ensures s[1..][i] == s[i + 1] { }
      }
    }
  }

  lemma EscapeOpenTag()
    ensures Escape("<b>X") == "&lt;b&gt;X"
  {
  }

  lemma EscapeCloseTag()
    ensures Escape("</b>") == "&lt;/b&gt;"
  {
  }

  lemma EscapeExample()
    ensures Escape("<b>X</b>") == "&lt;b&gt;X&lt;/b&gt;"
  {
    EscapeOpenTag();
    EscapeCloseTag();
    EscapeConcat("<b>X", "</b>");
    assert "<b>X" + "</b>" == "<b>X</b>";
    assert "&lt;b&gt;X" + "&lt;/b&gt;" == "&lt;b&gt;X&lt;/b&gt;";
  }

  /** A submitted fan card (name and favourite song, as stored under 'fan_card'). */
  datatype FanCard = FanCard(name: string, song: string)

  /** What renderFanCard puts in the panel: the placeholder, or the two escaped fields. */
  datatype CardView = Placeholder | Card(title: string, favourite: string)

  const Dash: string := "—"

  /** renderFanCard: no data gives the placeholder; otherwise the name and the song (or a dash when the
      song is empty) are escaped before they reach the markup. */
  function RenderFanCard(data: Option<FanCard>): (v: CardView)
    ensures data.None? <==> v.Placeholder?
    ensures v.Card? ==> forall i :: 0 <= i < |v.title| ==> v.title[i] != '<' && v.title[i] != '>' && v.title[i] != '"'
    ensures v.Card? ==> forall i :: 0 <= i < |v.favourite| ==> v.favourite[i] != '<' && v.favourite[i] != '>' && v.favourite[i] != '"'
    ensures v.Card? ==> Unescape(v.title) == data.value.name
    ensures v.Card? ==> Unescape(v.favourite) == (if data.value.song == "" then Dash else data.value.song)
    ensures v.Card? ==> forall i :: 0 <= i < |v.title| && v.title[i] == '&' ==> EntityAt(v.title, i)
    ensures v.Card? ==> forall i :: 0 <= i < |v.favourite| && v.favourite[i] == '&' ==> EntityAt(v.favourite, i)
  {
    match data
    case None => Placeholder
    case Some(card) =>
      UnescapeEscape(card.name);
      var song := if card.song == "" then Dash else card.song;
      UnescapeEscape(song);
      AmpersandsBeginEntities(card.name);
      AmpersandsBeginEntities(song);
      Card(Escape(card.name), Escape(song))
  }
}
