/** `getOverlayResource`: reading a color value out of an overlay's XML
    resource file. The file arrives as its lines, and the name of the
    resource to look for (chosen from the same file by a variant-priority
    reader that is not part of this model) as a parameter. */
module OverlayResource {
  import opened Wrappers
  import opened JavaStrings

  /** What a value starting with '?' (an attribute reference) becomes. */
  const Transparent := "#00000000"

  /** The resource name in double quotes, as it appears in `name="..."`. */
  function Quoted(name: string): string {
    "\"" + name + "\""
  }

  /** The line names the resource. */
  predicate Mentions(line: string, name: string) {
    Contains(line, Quoted(name))
  }

  /** A line that names a resource holds at least its two quotes. */
  lemma MentionsLength(line: string, name: string)
    requires Mentions(line, name)
    ensures |line| >= 2
  {
    var i :| 0 <= i <= |line| - |Quoted(name)| && OccursAt(line, Quoted(name), i);
  }

  /** `line.substring(line.lastIndexOf("\">") + 2)`: the text after the last
      `">`, or everything but the first character when there is none. */
  function AfterLastTagEnd(line: string): (r: string)
    requires |line| >= 1
    ensures Contains(line, "\">") ==> exists k | 0 <= k <= |line| - 2 ::
      OccursAt(line, "\">", k) && r == line[k + 2..]
      && forall j | k < j <= |line| - 2 :: !OccursAt(line, "\">", j)
    ensures !Contains(line, "\">") ==> r == line[1..]
  {
    line[LastIndexOf(line, "\">") + 2..]
  }

  /** The value a mentioning line yields: the text after the last `">` up
      to the first '<', with an attribute reference replaced by
      `Transparent`. When that text is non-empty and made only of '<',
      Java's `split("<")` returns an empty array and taking its first
      element throws. */
  function ExtractHex(line: string): (r: Outcome<string>)
    requires |line| >= 1
    ensures r.ThrewIndexOutOfBounds? <==>
      |AfterLastTagEnd(line)| > 0 && forall k | 0 <= k < |AfterLastTagEnd(line)| :: AfterLastTagEnd(line)[k] == '<'
    ensures r.Returned? ==> '<' !in r.value && !StartsWith(r.value, "?")
    ensures r.Returned? && !StartsWith(AfterLastTagEnd(line), "?") ==>
      var t := AfterLastTagEnd(line);
      StartsWith(t, r.value) && (|r.value| == |t| || t[|r.value|] == '<')
    ensures r.Returned? && StartsWith(AfterLastTagEnd(line), "?") ==> r.value == Transparent
  {
    match SplitHead(AfterLastTagEnd(line), '<')
    case None => ThrewIndexOutOfBounds
    case Some(hex) => Returned(if StartsWith(hex, "?") then Transparent else hex)
  }

  /** One resource item as it is written in an overlay file:
      `prefix">value</tag>`, e.g. `<color name="accent">#ff0000</color>`
      is `ItemLine("<color name=\"accent", "#ff0000", "color")`. */
  function ItemLine(prefix: string, value: string, tag: string): string {
    prefix + "\">" + value + "</" + tag + ">"
  }

  /** Reading the value back out of a written item gives the value, or
      `Transparent` for an attribute reference, provided the value holds
      no '<' and neither it nor the closing tag holds a double quote. */
  lemma ExtractItemLine(prefix: string, value: string, tag: string)
    requires '<' !in value && '"' !in value && '"' !in tag
    ensures ExtractHex(ItemLine(prefix, value, tag))
      == Returned(if StartsWith(value, "?") then Transparent else value)
  {
    var rest := value + "</" + tag + ">";
    assert ItemLine(prefix, value, tag) == prefix + "\">" + rest;
    assert '"' !in rest by {
      assert rest == value + ['<', '/'] + tag + ['>'];
    }
    AfterLastTagEndOf(prefix, rest);
    SplitHeadBeforeTag(value, "/" + tag + ">");
    assert rest == value + "<" + ("/" + tag + ">");
  }

  /** The text after the last `">` of `prefix">rest` is `rest` when `rest`
      holds no double quote. */
  lemma AfterLastTagEndOf(prefix: string, rest: string)
    requires '"' !in rest
    ensures AfterLastTagEnd(prefix + "\">" + rest) == rest
  {
    var line := prefix + "\">" + rest;
    assert OccursAt(line, "\">", |prefix|) by {
      assert line[|prefix|..|prefix| + 2] == "\">";
    }
    forall j | |prefix| < j <= |line| - 2
      ensures !OccursAt(line, "\">", j)
    {
      if j == |prefix| + 1 {
        assert line[j] == '>';
      } else {
        assert line[j] == rest[j - |prefix| - 2];
      }
    }
    assert line[|prefix| + 2..] == rest;
  }

  /** The first piece of `value<more` split at '<' is `value` when `value`
      holds no '<' and `more` starts with something other than '<'. */
  lemma SplitHeadBeforeTag(value: string, more: string)
    requires '<' !in value && |more| > 0 && more[0] != '<'
    ensures SplitHead(value + "<" + more, '<') == Some(value)
  {
    var s := value + "<" + more;
    assert s[|value| + 1] == more[0];
    assert s[..|value|] == value;
    assert s[|value|] == '<';
  }

  /** The value the scan holds after reading `lines` in order, looking for
      `name`: every mentioning line replaces it, so the scan never stops
      early, and a line whose value cannot be split ends it with the
      exception. */
  function Scan(name: string, lines: seq<string>): Outcome<Option<string>>
    decreases |lines|
  {
    if lines == [] then Returned(None)
    else
      var prev := Scan(name, lines[..|lines| - 1]);
      var line := lines[|lines| - 1];
      if prev.ThrewIndexOutOfBounds? || !Mentions(line, name) then prev
      else
        MentionsLength(line, name);
        match ExtractHex(line)
        case ThrewIndexOutOfBounds => ThrewIndexOutOfBounds
        case Returned(hex) => Returned(Some(hex))
  }

  /** The result of `getOverlayResource`: null when no resource name was
      found, otherwise the outcome of the scan. */
  function OverlayColor(resourceName: Option<string>, lines: seq<string>): Outcome<Option<string>> {
    match resourceName
    case None => Returned(None)
    case Some(name) => Scan(name, lines)
  }

  /** `getOverlayResource`, reading the lines one by one. */
  method GetOverlayResource(resourceName: Option<string>, lines: seq<string>) returns (r: Outcome<Option<string>>)
    ensures r == OverlayColor(resourceName, lines)
  {
    var hex: Option<string> := None;
    if resourceName.Some? {
      var name := resourceName.value;
      var quoted := "\"" + name + "\"";
      for i := 0 to |lines|
        invariant Scan(name, lines[..i]) == Returned(hex)
      {
        var line := lines[i];
        assert lines[..i + 1][..i] == lines[..i];
        if Contains(line, quoted) {
          MentionsLength(line, name);
          var split := SplitHead(line[LastIndexOf(line, "\">") + 2..], '<');
          if split.None? {
            ScanThrewStays(name, lines, i + 1);
            return ThrewIndexOutOfBounds;
          }
          hex := Some(if StartsWith(split.value, "?") then Transparent else split.value);
        }
      }
      assert lines[..|lines|] == lines;
    }
    return Returned(hex);
  }

  /** Once the scan has thrown, reading more lines does not change that. */
  lemma {:induction false} ScanThrewStays(name: string, lines: seq<string>, k: nat)
    requires k <= |lines|
    requires Scan(name, lines[..k]).ThrewIndexOutOfBounds?
    ensures Scan(name, lines).ThrewIndexOutOfBounds?
    decreases |lines| - k
  {
    if k == |lines| {
      assert lines[..k] == lines;
    } else {
      assert lines[..k + 1][..k] == lines[..k];
      ScanThrewStays(name, lines, k + 1);
    }
  }

  /** With no line naming the resource, the result is null. */
  lemma {:induction false} ScanNoMention(name: string, lines: seq<string>)
    requires forall j | 0 <= j < |lines| :: !Mentions(lines[j], name)
    ensures Scan(name, lines) == Returned(None)
    decreases |lines|
  {
    if lines != [] {
      ScanNoMention(name, lines[..|lines| - 1]);
    }
  }

  /** The line names the resource and its value cannot be split. */
  predicate Breaks(line: string, name: string) {
    Mentions(line, name) && |line| >= 1 && ExtractHex(line).ThrewIndexOutOfBounds?
  }

  /** The scan throws exactly when some line naming the resource has a
      value that cannot be split. */
  lemma {:induction false} ScanThrows(name: string, lines: seq<string>)
    ensures Scan(name, lines).ThrewIndexOutOfBounds? <==>
      exists j | 0 <= j < |lines| :: Breaks(lines[j], name)
    decreases |lines|
  {
    if lines != [] {
      var init, last := lines[..|lines| - 1], lines[|lines| - 1];
      ScanThrows(name, init);
      if Scan(name, lines).ThrewIndexOutOfBounds? {
        if Scan(name, init).ThrewIndexOutOfBounds? {
          var j :| 0 <= j < |init| && Breaks(init[j], name);
          assert lines[j] == init[j];
        } else {
          assert Breaks(lines[|lines| - 1], name);
        }
      } else {
        forall j | 0 <= j < |lines|
          ensures !Breaks(lines[j], name)
        {
          if j < |init| {
            assert lines[j] == init[j];
          }
        }
      }
    }
  }

  /** When no line naming the resource has a value that cannot be split,
      the last line naming it decides the result. */
  lemma {:induction false} ScanLastMentionWins(name: string, lines: seq<string>, i: nat)
    requires i < |lines| && Mentions(lines[i], name)
    requires forall j | i < j < |lines| :: !Mentions(lines[j], name)
    requires forall j | 0 <= j < |lines| :: !Breaks(lines[j], name)
    ensures |lines[i]| >= 1
    ensures ExtractHex(lines[i]).Returned?
      && Scan(name, lines) == Returned(Some(ExtractHex(lines[i]).value))
    decreases |lines|
  {
    MentionsLength(lines[i], name);
    var init := lines[..|lines| - 1];
    assert forall j | 0 <= j < |init| :: init[j] == lines[j];
    if i < |lines| - 1 {
      ScanLastMentionWins(name, init, i);
    } else {
      ScanThrows(name, init);
    }
  }
}
