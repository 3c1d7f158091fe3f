/** Picking the synthesis voice for an Indonesian utterance. `textToSpeech`
    and `readText` carry the same two `voices.find` calls; both use
    `SelectVoice`. */
module Voices {
  import opened JsText
  import opened Optional

  /** A platform synthesis voice, reduced to the two fields the pick reads. */
  datatype Voice = Voice(name: string, lang: string)

  /** Second-tier predicate: the voice speaks some Indonesian locale. */
  predicate IsIndonesian(v: Voice)
  {
    StartsWith(v.lang, "id")
  }

  /** First-tier predicate: an Indonesian voice whose lower-cased name
      mentions Google or Indonesia. */
  predicate IsPreferred(v: Voice)
  {
    IsIndonesian(v) &&
    (Contains(ToLower(v.name), "google") || Contains(ToLower(v.name), "indonesia"))
  }

  /** `i` is the first position of `voices` whose voice satisfies `p`. */
  ghost predicate FirstWith(voices: seq<Voice>, p: Voice -> bool, i: int)
  {
    0 <= i < |voices| && p(voices[i]) && forall j :: 0 <= j < i ==> !p(voices[j])
  }

  /** The position `voices.find(p)` stops at, if any. */
  function FindIndex(voices: seq<Voice>, p: Voice -> bool): (r: Option<nat>)
    ensures r.Some? ==> FirstWith(voices, p, r.value)
    ensures r.None? ==> forall i :: 0 <= i < |voices| ==> !p(voices[i])
  {
    if voices == [] then None
    else if p(voices[0]) then Some(0)
    else match FindIndex(voices[1..], p)
      case None => None
      case Some(i) => Some(i + 1)
  }

  /** `voices.find(p)`: the first voice satisfying `p`, or none. */
  function Find(voices: seq<Voice>, p: Voice -> bool): (r: Option<Voice>)
    ensures forall i :: FirstWith(voices, p, i) ==> r == Some(voices[i])
    ensures r.None? <==> forall i :: 0 <= i < |voices| ==> !p(voices[i])
  {
    match FindIndex(voices, p)
    case None => None
    case Some(i) => Some(voices[i])
  }

  /** The voice put on the utterance: the first preferred voice, otherwise the
      first Indonesian voice, otherwise none (the platform default). */
  function SelectVoice(voices: seq<Voice>): (r: Option<Voice>)
    ensures forall i :: FirstWith(voices, IsPreferred, i) ==> r == Some(voices[i])
    ensures (forall i :: 0 <= i < |voices| ==> !IsPreferred(voices[i])) ==>
      forall i :: FirstWith(voices, IsIndonesian, i) ==> r == Some(voices[i])
    ensures r.None? <==> forall i :: 0 <= i < |voices| ==> !IsIndonesian(voices[i])
    ensures r.Some? ==> r.value in voices && IsIndonesian(r.value)
  {
    match Find(voices, IsPreferred)
    case Some(v) => Some(v)
    case None => Find(voices, IsIndonesian)
  }

  /** The pick depends on nothing but the list: a preferred voice wins over an
      earlier plain Indonesian one, whatever its position. */
  lemma {:induction false} PreferredWinsOverEarlierIndonesian(voices: seq<Voice>, i: nat, j: nat)
    requires i < j < |voices|
    requires IsIndonesian(voices[i]) && !IsPreferred(voices[i])
    requires FirstWith(voices, IsPreferred, j)
    ensures SelectVoice(voices) == Some(voices[j]) != Some(voices[i])
  {
    assert voices[j] != voices[i];
  }

  /** The two-voice example: a generic Indonesian voice listed before a Google
      one; the Google voice is picked. */
  lemma GoogleVoiceExample()
    ensures SelectVoice([Voice("Generic id-ID", "id-ID"), Voice("Premium Google id-ID Female", "id-ID")])
         == Some(Voice("Premium Google id-ID Female", "id-ID"))
  {
    var generic := Voice("Generic id-ID", "id-ID");
    var google := Voice("Premium Google id-ID Female", "id-ID");
    GenericNotPreferred(generic);
    GoogleIsPreferred(google);
    assert FirstWith([generic, google], IsPreferred, 1);
  }

  lemma GenericNotPreferred(v: Voice)
    requires v == Voice("Generic id-ID", "id-ID")
    ensures IsIndonesian(v) && !IsPreferred(v)
  {
    var low := ToLower(v.name);
    assert forall k :: 1 <= k < |low| ==> low[k] != 'g';
    AbsentPair(low, "google");
    assert forall k :: 0 <= k < |low| - 1 && low[k] == 'i' ==> low[k + 1] != 'n';
    AbsentPair(low, "indonesia");
  }

  lemma GoogleIsPreferred(v: Voice)
    requires v == Voice("Premium Google id-ID Female", "id-ID")
    ensures IsPreferred(v)
  {
    var low := ToLower(v.name);
    assert v.name[8..14] == "Google";
    forall j | 8 <= j < 14 ensures low[j] == "google"[j - 8] {
      assert low[j] == LowerChar(v.name[j]);
    }
    assert low[8..14] == "google";
    ContainsAt(low, "google", 8);
  }
}
