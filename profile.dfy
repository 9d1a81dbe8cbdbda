/**
 * `get_nickname` and the pronoun choice of `get_llm_respond`: the display name
 * and gender of the target member, with the fallbacks used when the
 * group-member lookup is missing fields or fails.
 */
module Profile {
  import opened Wrappers

  /** The fields of a `get_group_member_info` answer that are read; None when a key is absent. */
  datatype MemberInfo = MemberInfo(card: Option<string>, nickname: Option<string>, sex: Option<string>)

  /** The lookup either raised or answered. */
  datatype Lookup = Failed | Found(info: MemberInfo)

  const FallbackNickname: string := "群友"
  const UnknownGender: string := "unknown"
  const MaleGender: string := "male"
  const HePronoun: string := "他"
  const ShePronoun: string := "她"

  /** Python truthiness of an optional string: present and non-empty. */
  predicate Truthy(v: Option<string>)
  {
    v.Some? && v.value != ""
  }

  /** Python's `a or b or ... or default` over optional strings: the first truthy one, else `default`. */
  function FirstTruthy(vs: seq<Option<string>>, default: string): (r: string)
    ensures (exists k :: 0 <= k < |vs| && Truthy(vs[k])) || r == default
    ensures r == default || exists k :: 0 <= k < |vs| && Truthy(vs[k]) && r == vs[k].value
    ensures forall k :: 0 <= k < |vs| && Truthy(vs[k]) && (forall j :: 0 <= j < k ==> !Truthy(vs[j])) ==>
      r == vs[k].value
    ensures (forall k :: 0 <= k < |vs| ==> !Truthy(vs[k])) ==> r == default
  {
    if vs == [] then default
    else if Truthy(vs[0]) then vs[0].value
    else
      var r := FirstTruthy(vs[1..], default);
      assert forall k :: 0 <= k < |vs[1..]| ==> vs[1..][k] == vs[k + 1];
      r
  }

  /** The nickname/gender pair of `get_nickname`. */
  function GetNickname(lookup: Lookup): (r: (string, string))
  {
    match lookup
    case Failed => (FallbackNickname, UnknownGender)
    case Found(info) =>
      var nickname := if Truthy(info.card) then info.card.value
                      else if Truthy(info.nickname) then info.nickname.value
                      else FallbackNickname;
      (nickname, info.sex.GetOr(UnknownGender))
  }

  /**
   * The name shown is the group card if it is non-empty, else the nickname if it is
   * non-empty, else "群友"; it is never empty. The gender is the `sex` field when
   * present and "unknown" otherwise; a failed lookup gives ("群友", "unknown").
   */
  lemma NicknameResolution(lookup: Lookup)
    ensures GetNickname(lookup).0 != ""
    ensures lookup.Failed? ==> GetNickname(lookup) == (FallbackNickname, UnknownGender)
    ensures lookup.Found? ==>
      GetNickname(lookup).0 == FirstTruthy([lookup.info.card, lookup.info.nickname], FallbackNickname)
    ensures lookup.Found? && lookup.info.sex.None? ==> GetNickname(lookup).1 == UnknownGender
    ensures lookup.Found? && lookup.info.sex.Some? ==> GetNickname(lookup).1 == lookup.info.sex.value
  {
    if lookup.Found? {
      var vs := [lookup.info.card, lookup.info.nickname];
      assert vs[1..] == [lookup.info.nickname];
      assert vs[1..][1..] == [];
    }
  }

  /** The card wins over the nickname whenever it is non-empty. */
  lemma CardPreferred(info: MemberInfo)
    requires Truthy(info.card)
    ensures GetNickname(Found(info)).0 == info.card.value
  {
  }

  /** The pronoun substituted into the prompt: "他" for "male", "她" for anything else. */
  function Pronoun(gender: string): (r: string)
    ensures r == HePronoun <==> gender == MaleGender
    ensures r == ShePronoun <==> gender != MaleGender
  {
    if gender == MaleGender then HePronoun else ShePronoun
  }

  /** A member whose lookup failed, or whose sex is unknown, is referred to as "她". */
  lemma FallbackPronoun(lookup: Lookup)
    requires lookup.Failed? || (lookup.info.sex.None?)
    ensures Pronoun(GetNickname(lookup).1) == ShePronoun
  {
  }
}
