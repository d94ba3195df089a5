/**
 * The colour normalisation the builders share: an RGB hex colour given with or
 * without leading '#' is stored without it, upper-cased.
 */
module Colors {
  import opened Strings

  /** `color.trim_start_matches('#').to_uppercase()`. */
  function NormalizeColor(color: string): (r: string)
    ensures |r| <= |color|
    ensures forall i :: 0 <= i < |color| - |r| ==> color[i] == '#'
    ensures |r| > 0 ==> color[|color| - |r|] != '#'
    ensures forall i :: 0 <= i < |r| ==> r[i] == UpperChar(color[|color| - |r| + i])
  {
    TrimmedHashes(color);
    ToUpper(TrimStartMatches(color, "#"))
  }

  /** `trim_start_matches('#')` removes exactly the leading run of '#'. */
  lemma {:induction false} TrimmedHashes(s: string)
    ensures var t := TrimStartMatches(s, "#");
      (forall i :: 0 <= i < |s| - |t| ==> s[i] == '#') && (|t| > 0 ==> t[0] != '#')
    decreases |s|
  {
    var t := TrimStartMatches(s, "#");
    if StartsWith(s, "#") {
      assert s[..1] == "#";
      TrimmedHashes(s[1..]);
    } else if |t| > 0 {
      assert t == s && s[..1] == [s[0]];
    }
  }

  /** A stored colour has no lower-case letter. */
  predicate NoLowerCase(s: string) {
    forall i :: 0 <= i < |s| ==> !('a' <= s[i] <= 'z')
  }

  /** A stored colour has no leading '#' and no lower-case letter. */
  lemma NormalizedShape(color: string)
    ensures !StartsWith(NormalizeColor(color), "#")
    ensures NoLowerCase(NormalizeColor(color))
  {
    var t := TrimStartMatches(color, "#");
    var r := NormalizeColor(color);
    forall i | 0 <= i < |r|
      ensures !('a' <= r[i] <= 'z')
    {
      UpperCharShape(t[i]);
    }
    if |r| > 0 {
      UpperCharShape(t[0]);
      assert r[0] == UpperChar(t[0]);
      FirstCharNotPrefix(r, "#");
    }
  }

  lemma UpperCharShape(c: char)
    ensures !('a' <= UpperChar(c) <= 'z')
    ensures c != '#' ==> UpperChar(c) != '#'
  {
  }

  /** Leading '#'s make no difference. */
  lemma NormalizeIgnoresHash(color: string)
    ensures NormalizeColor("#" + color) == NormalizeColor(color)
  {
    assert ("#" + color)[..1] == "#";
    assert ("#" + color)[1..] == color;
  }

  /** A colour already upper-case and without '#' is kept as given, as "0000FF" is. */
  lemma NormalizeKeepsStored(color: string)
    requires !StartsWith(color, "#") && NoLowerCase(color)
    ensures NormalizeColor(color) == color
  {
    assert TrimStartMatches(color, "#") == color;
  }

  /** Normalising twice is normalising once. */
  lemma NormalizeIdempotent(color: string)
    ensures NormalizeColor(NormalizeColor(color)) == NormalizeColor(color)
  {
    NormalizedShape(color);
    NormalizeKeepsStored(NormalizeColor(color));
  }

  /** "#ff0000" is stored as "FF0000". */
  lemma NormalizeExample(color: string)
    requires color == "#ff0000"
    ensures NormalizeColor(color) == "FF0000"
  {
    var t := color[1..];
    assert color == "#" + t;
    NormalizeIgnoresHash(t);
    FirstCharNotPrefix(t, "#");
    assert TrimStartMatches(t, "#") == t;
    var r := ToUpper(t);
    assert |r| == 6;
    assert r[0] == 'F' && r[1] == 'F' && r[2] == '0' && r[3] == '0' && r[4] == '0' && r[5] == '0';
  }
}
