/*******************************************************************************
 *  `buildProfilePhotoUrl` of src/utils/photoUtils.js: the address of a
 *  member's profile photo in a requested quality, and the reading of that
 *  address back into the photo location and the quality.
 *******************************************************************************/

module PhotoUtils {
  import opened Js

  /** `ProfilePhotoQuality`. */
  datatype Quality = Low | Medium | High

  function QualityName(q: Quality): string {
    match q
    case Low => "LOW"
    case Medium => "MEDIUM"
    case High => "HIGH"
  }

  function QualityOfName(s: string): Option<Quality> {
    if s == "LOW" then Some(Low)
    else if s == "MEDIUM" then Some(Medium)
    else if s == "HIGH" then Some(High)
    else None
  }

  /** The quality a caller gets by leaving the argument out. */
  const DEFAULT_QUALITY: Quality := High

  /** The backend address used when `VITE_BACKEND_URL` is unset or empty. */
  const DEFAULT_BACKEND_URL: string := "http://localhost:8080"

  /** `import.meta.env.VITE_BACKEND_URL || 'http://localhost:8080'`; the build
      environment is a parameter. */
  function BaseUrl(configured: Option<string>): (r: string)
    ensures StrTruthy(configured) ==> r == configured.value
    ensures !StrTruthy(configured) ==> r == DEFAULT_BACKEND_URL
  {
    StrOr(configured, Some(DEFAULT_BACKEND_URL)).value
  }

  /** `&` when the path already carries a query string, `?` otherwise. */
  function Separator(path: string): (c: char)
    ensures c == '&' <==> '?' in path
    ensures c == '?' <==> '?' !in path
  {
    if '?' in path then '&' else '?'
  }

  /** `buildProfilePhotoUrl(profilePhotoPath, quality)`: `null` for a falsy
      path, otherwise the path under the backend address with the quality
      appended as the last query parameter. */
  function BuildProfilePhotoUrl(path: Option<string>, quality: Quality, configured: Option<string>): (r: Option<string>)
    ensures r.None? <==> !StrTruthy(path)
    ensures r.Some? ==> '?' in r.value
    ensures r.Some? ==> var prefix := BaseUrl(configured) + path.value;
                        prefix < r.value && r.value[|prefix|] == Separator(path.value)
  {
    if !StrTruthy(path) then None
    else
      var p := path.value;
      var u := BaseUrl(configured) + p + [Separator(p)] + "quality=" + QualityName(quality);
      assert u[|BaseUrl(configured) + p|] == Separator(p);
      Some(u)
  }

  // ---------------------------------------------------------------------------
  // Reading an address back
  // ---------------------------------------------------------------------------

  predicate IsQuerySeparator(c: char) {
    c == '?' || c == '&'
  }

  /** The position of the last `?` or `&` of a string. */
  function LastSeparator(s: string): (r: Option<nat>)
    ensures r.Some? ==> r.value < |s| && IsQuerySeparator(s[r.value])
    ensures r.Some? ==> forall j :: r.value < j < |s| ==> !IsQuerySeparator(s[j])
    ensures r.None? <==> forall j :: 0 <= j < |s| ==> !IsQuerySeparator(s[j])
    decreases |s|
  {
    if s == [] then None
    else if IsQuerySeparator(s[|s| - 1]) then Some(|s| - 1)
    else LastSeparator(s[..|s| - 1])
  }

  /** Splits a photo address into everything before its last query
      parameter and the quality that parameter names. */
  function ReadPhotoUrl(url: string): Option<(string, Quality)> {
    match LastSeparator(url)
    case None => None
    case Some(i) =>
      var param := url[i + 1..];
      if |param| >= 8 && param[..8] == "quality=" then
        match QualityOfName(param[8..])
        case Some(q) => Some((url[..i], q))
        case None => None
      else None
  }

  lemma QualityNameRoundTrip(q: Quality)
    ensures QualityOfName(QualityName(q)) == Some(q)
    ensures forall j :: 0 <= j < |"quality=" + QualityName(q)| ==> !IsQuerySeparator(("quality=" + QualityName(q))[j])
  {
  }

  /** A separator with none after it is the last one. */
  lemma LastSeparatorAt(s: string, i: nat)
    requires i < |s| && IsQuerySeparator(s[i])
    requires forall j :: i < j < |s| ==> !IsQuerySeparator(s[j])
    ensures LastSeparator(s) == Some(i)
  {
  }

  /** The last separator of `p + [c] + t` is `c` when `t` has none. */
  lemma LastSeparatorOfJoin(p: string, c: char, t: string)
    requires IsQuerySeparator(c)
    requires forall j :: 0 <= j < |t| ==> !IsQuerySeparator(t[j])
    ensures LastSeparator(p + [c] + t) == Some(|p|)
  {
    var s := p + [c] + t;
    assert s[|p|] == c;
    assert s[|p| + 1..] == t;
    forall j | |p| < j < |s| ensures !IsQuerySeparator(s[j]) {
      assert s[j] == s[|p| + 1..][j - |p| - 1];
    }
    LastSeparatorAt(s, |p|);
  }

  /** A photo address reads back as the backend address followed by the
      photo path, and the quality that was asked for, whether or not the
      path already carried a query string. */
  lemma PhotoUrlRoundTrip(path: Option<string>, quality: Quality, configured: Option<string>)
    requires StrTruthy(path)
    ensures ReadPhotoUrl(BuildProfilePhotoUrl(path, quality, configured).value)
            == Some((BaseUrl(configured) + path.value, quality))
  {
    var p := BaseUrl(configured) + path.value;
    var t := "quality=" + QualityName(quality);
    var c := Separator(path.value);
    QualityNameRoundTrip(quality);
    assert BuildProfilePhotoUrl(path, quality, configured).value == p + [c] + t;
    LastSeparatorOfJoin(p, c, t);
    assert (p + [c] + t)[|p| + 1..] == t;
    assert (p + [c] + t)[..|p|] == p;
  }

  /** Leaving the quality out asks for the high-quality photo: the address
      ends in `quality=HIGH` and reads back as the high quality. */
  lemma DefaultQualityIsHigh(path: Option<string>, configured: Option<string>)
    requires StrTruthy(path)
    ensures var u := BuildProfilePhotoUrl(path, DEFAULT_QUALITY, configured).value;
            && ReadPhotoUrl(u) == Some((BaseUrl(configured) + path.value, High))
            && |u| >= 12 && u[|u| - 12..] == "quality=HIGH"
  {
    PhotoUrlRoundTrip(path, DEFAULT_QUALITY, configured);
  }
}
