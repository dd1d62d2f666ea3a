/**
 * The status badge (src/ui/Badge.jsx): a colour class per status with a
 * fallback, and the label with the status's first hyphen turned into a space.
 */
module Badge {
  import opened Js
  import TrackContent

  /** `STATUS_COLORS`. */
  const StatusColors: map<string, string> := map[
      "new" := NewColor,
      "in-kitchen" := "bg-yellow-200 text-yellow-800",
      "ready" := "bg-blue-200 text-blue-800",
      "delivered" := "bg-green-200 text-green-800",
      "billing-requested" := "bg-purple-200 text-purple-800",
      "paid" := "bg-indigo-200 text-indigo-800",
      "completed" := "bg-green-600 text-white"]

  /** The one entry as long as the fallback. */
  const NewColor: string := "bg-gray-200 text-gray-800"

  const FallbackColor: string := "bg-gray-100 text-gray-800"

  /** `STATUS_COLORS[status] || "bg-gray-100 text-gray-800"`. */
  function Color(status: Option<string>): string
  {
    if status.Some? && status.value in StatusColors then StatusColors[status.value] else FallbackColor
  }

  /** A known status gets its own entry, anything else the fallback, which
      no known status uses. */
  lemma ColorSpec(status: Option<string>)
    ensures status.Some? && status.value in StatusColors ==> Color(status) == StatusColors[status.value]
    ensures !(status.Some? && status.value in StatusColors) ==> Color(status) == FallbackColor
    ensures Color(status) == FallbackColor <==> !(status.Some? && status.value in StatusColors)
  {
    // Every other entry has a different length from the fallback.
    assert |FallbackColor| == 25;
    assert NewColor[8] != FallbackColor[8];
  }

  /** The badge and the tracker know the same seven statuses. */
  lemma SameStatuses()
    ensures StatusColors.Keys == TrackContent.StatusMessages.Keys
  {
  }

  /** `s.replace("-", " ")`: a string pattern replaces its first occurrence only. */
  function ReplaceFirstHyphen(s: string): (r: string)
    ensures |r| == |s|
  {
    if s == [] then []
    else if s[0] == '-' then [' '] + s[1..]
    else [s[0]] + ReplaceFirstHyphen(s[1..])
  }

  /** What the badge renders as its label: the text, or the TypeError that
      `status.replace` raises when the status is `null` or `undefined`. */
  datatype Rendered = Text(text: string) | TypeError

  /** `status.replace("-", " ")`. */
  function Label(status: Option<string>): (r: Rendered)
    ensures r.TypeError? <==> status.None?
    ensures r.Text? ==> |r.text| == |status.value|
  {
    if status.None? then TypeError else Text(ReplaceFirstHyphen(status.value))
  }

  /** Only the first hyphen becomes a space; every other character, later
      hyphens included, stays. */
  lemma {:induction false} ReplaceFirstHyphenSpec(s: string)
    ensures '-' !in s ==> ReplaceFirstHyphen(s) == s
    ensures '-' in s ==>
      && ReplaceFirstHyphen(s)[IndexOf(s, '-')] == ' '
      && forall i :: 0 <= i < |s| && i != IndexOf(s, '-') ==> ReplaceFirstHyphen(s)[i] == s[i]
  {
    if s != [] && s[0] != '-' {
      ReplaceFirstHyphenSpec(s[1..]);
      assert '-' in s ==> '-' in s[1..];
      var r := ReplaceFirstHyphen(s);
      assert r == [s[0]] + ReplaceFirstHyphen(s[1..]);
      forall i | 0 < i < |s| ensures r[i] == ReplaceFirstHyphen(s[1..])[i - 1] && s[i] == s[1..][i - 1] {
      }
    }
  }

  /** The kitchen status reads as two words. */
  lemma LabelInKitchen()
    ensures Label(Some("in-kitchen")) == Text("in kitchen")
  {
    var s := "in-kitchen";
    LabelUnfold(s, 2);
    assert s[..2] + " " + s[3..] == "in kitchen";
  }

  /** Only the first of several hyphens is replaced. */
  lemma LabelKeepsLaterHyphens()
    ensures Label(Some("a-b-c")) == Text("a b-c")
  {
    var s := "a-b-c";
    LabelUnfold(s, 1);
    assert s[..1] + " " + s[2..] == "a b-c";
  }

  /** With the first hyphen at `k`, the label is the status with position
      `k` turned into a space. */
  lemma {:induction false} LabelUnfold(s: string, k: nat)
    requires k < |s| && s[k] == '-' && forall i :: 0 <= i < k ==> s[i] != '-'
    ensures ReplaceFirstHyphen(s) == s[..k] + " " + s[k + 1..]
  {
    if k > 0 {
      LabelUnfold(s[1..], k - 1);
      assert s[1..][..k - 1] == s[1..k];
      assert s[1..][k..] == s[k + 1..];
      assert s[..k] == [s[0]] + s[1..k];
    }
  }
}
