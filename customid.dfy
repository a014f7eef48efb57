/** The custom id carried by a panel button: `role:<role id>`. */
module CustomId {
  import opened Wrappers
  import opened Guild
  import opened Text

  const RolePrefix: string := "role:"

  /** The custom id of the button for role `id`. */
  function Encode(id: RoleId): (c: string)
    ensures HasPrefix(c, RolePrefix) && c[|RolePrefix|..] == id
  {
    RolePrefix + id
  }

  /**
   * A button's custom id is handled only when it starts with `role:`; the
   * role id is then the second field of the id split at ':', that is, the
   * text after the prefix up to the next ':' or the end.
   */
  function Decode(customId: string): (r: Option<RoleId>)
    ensures r.Some? <==> HasPrefix(customId, RolePrefix)
    ensures r.Some? ==> ':' !in r.value
    ensures r.Some? ==> HasPrefix(customId[|RolePrefix|..], r.value)
    ensures r.Some? && |RolePrefix| + |r.value| < |customId| ==> customId[|RolePrefix| + |r.value|] == ':'
  {
    if HasPrefix(customId, RolePrefix) then
      var rest := customId[|RolePrefix|..];
      assert customId == RolePrefix + rest;
      SplitPrefixed(rest);
      FirstField(rest, ':');
      SplitPiecesFree(rest, ':');
      Some(Split(customId, ':')[1])
    else None
  }

  /** An id after the prefix is split off as a whole: "role" is the first field, the rest follows. */
  lemma SplitPrefixed(rest: string)
    ensures Split(RolePrefix + rest, ':') == ["role"] + Split(rest, ':')
    ensures Split(RolePrefix + rest, ':')[1] == Split(rest, ':')[0]
  {
    assert RolePrefix + rest == "role" + [':'] + rest;
    SplitAtSeparator("role", ':', rest);
    SplitNoSeparator("role", ':');
  }

  /** The first field of a split runs to the first separator. */
  lemma {:induction false} FirstField(s: string, sep: char)
    ensures HasPrefix(s, Split(s, sep)[0])
    ensures |Split(s, sep)[0]| < |s| ==> s[|Split(s, sep)[0]|] == sep
  {
    if |s| > 0 {
      FirstField(s[1..], sep);
    }
  }

  /** Decoding a button's id gives back the role id exactly when the id holds no ':'. */
  lemma DecodeEncode(id: RoleId)
    ensures Decode(Encode(id)) == Some(id) <==> ':' !in id
  {
    if ':' !in id {
      SplitPrefixed(id);
      SplitNoSeparator(id, ':');
    }
  }

  /** A decoded id re-encodes to the custom id it came from, unless more ':'-fields followed it. */
  lemma EncodeDecode(customId: string, id: RoleId)
    requires Decode(customId) == Some(id)
    requires ':' !in customId[|RolePrefix|..]
    ensures Encode(id) == customId
  {
    var rest := customId[|RolePrefix|..];
    SplitPrefixed(rest);
    SplitNoSeparator(rest, ':');
    assert customId == RolePrefix + rest;
  }
}
