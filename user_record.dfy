/** The record the registration screen stores under `@user_data` and the
    profile screen reads back, with the two store keys the screens share. */
module UserRecords {
  import opened Wrappers
  import opened Json

  /** Key of the serialised user record. */
  const UserDataKey: string := "@user_data"
  /** Key of the "registered" flag, holding the text "true" or "false". */
  const RegisteredKey: string := "@user_registered"

  /** `{ name, country, preferredLanguage }` as the registration screen
      builds it; name and country are kept exactly as typed. */
  datatype UserRecord = UserRecord(name: string, country: string, preferredLanguage: string)

  /** One `"key":value` member of a JSON object, as `JSON.stringify` writes it. */
  function Member(key: string, value: string): string {
    Quote(key) + ":" + Quote(value)
  }

  /** `JSON.stringify({ name, country, preferredLanguage })`: members in
      insertion order, no spaces. */
  function EncodeUser(r: UserRecord): string {
    "{" + (Member("name", r.name)
           + ("," + Member("country", r.country)
              + ("," + Member("preferredLanguage", r.preferredLanguage) + "}")))
  }

  /** The text after the literal prefix `p`, if `s` starts with it. */
  function Expect(p: string, s: string): (r: Option<string>)
    ensures r.Some? <==> |p| <= |s| && s[..|p|] == p
    ensures r.Some? ==> s == p + r.value
  {
    if |p| <= |s| && s[..|p|] == p then Some(s[|p|..]) else None
  }

  /** Reads `"key":` followed by a string literal; gives the string and the
      text after it. */
  function ReadMember(key: string, s: string): Option<(string, string)> {
    match ParseString(s)
    case None => None
    case Some((k, afterKey)) =>
      if k != key then None
      else (match Expect(":", afterKey)
            case None => None
            case Some(afterColon) => ParseString(afterColon))
  }

  /** Reads a comma and then the member for `key`. */
  function ReadNextMember(key: string, s: string): Option<(string, string)> {
    match Expect(",", s)
    case None => None
    case Some(t) => ReadMember(key, t)
  }

  /** `JSON.parse` of the stored record, for text laid out as `EncodeUser`
      writes it; any other text reads as a parse error (`None`). */
  function DecodeUser(text: string): Option<UserRecord> {
    match Expect("{", text)
    case None => None
    case Some(t0) => DecodeMembers(t0)
  }

  /** The three members of the record and the closing brace. */
  function DecodeMembers(t0: string): Option<UserRecord> {
    match ReadMember("name", t0)
    case None => None
    case Some((name, t1)) =>
      (match ReadNextMember("country", t1)
       case None => None
       case Some((country, t2)) =>
         (match ReadNextMember("preferredLanguage", t2)
          case None => None
          case Some((language, t3)) =>
            if t3 == "}" then Some(UserRecord(name, country, language)) else None))
  }

  /** The text after a literal prefix is what follows it. */
  lemma ExpectPrefix(p: string, rest: string)
    ensures Expect(p, p + rest) == Some(rest)
  {
    assert (p + rest)[..|p|] == p;
  }

  /** After the key literal and the colon, a member reads as the string
      literal that follows. */
  lemma KeyThenValue(key: string, t: string)
    ensures ReadMember(key, Quote(key) + (":" + t)) == ParseString(t)
  {
    QuoteReadsBack(key, ":" + t);
    ExpectPrefix(":", t);
  }

  /** A member written for `key` and `value` reads back as `value`,
      leaving the text after it. */
  lemma MemberReadsBack(key: string, value: string, rest: string)
    ensures ReadMember(key, Member(key, value) + rest) == Some((value, rest))
  {
    var qv := Quote(value);
    assert Member(key, value) + rest == Quote(key) + (":" + (qv + rest));
    KeyThenValue(key, qv + rest);
    QuoteReadsBack(value, rest);
  }

  /** A comma and a member read back the same way. */
  lemma NextMemberReadsBack(key: string, value: string, rest: string)
    ensures ReadNextMember(key, "," + Member(key, value) + rest) == Some((value, rest))
  {
    ExpectPrefix(",", Member(key, value) + rest);
    assert "," + Member(key, value) + rest == "," + (Member(key, value) + rest);
    MemberReadsBack(key, value, rest);
  }

  /** The members of a record, read one after another, give the record. */
  lemma DecodeMembersOf(t0: string, t1: string, t2: string, r: UserRecord)
    requires ReadMember("name", t0) == Some((r.name, t1))
    requires ReadNextMember("country", t1) == Some((r.country, t2))
    requires ReadNextMember("preferredLanguage", t2) == Some((r.preferredLanguage, "}"))
    ensures DecodeMembers(t0) == Some(r)
  {
  }

  /** What the registration screen stores under `@user_data` parses back
      to the very record it wrote, for every name, country and language. */
  lemma DecodeEncodeUser(r: UserRecord)
    ensures DecodeUser(EncodeUser(r)) == Some(r)
  {
    var m1 := Member("name", r.name);
    var m2 := Member("country", r.country);
    var m3 := Member("preferredLanguage", r.preferredLanguage);
    var t2 := "," + m3 + "}";
    var t1 := "," + m2 + t2;
    var t0 := m1 + t1;
    assert EncodeUser(r) == "{" + t0;
    ExpectPrefix("{", t0);
    MemberReadsBack("name", r.name, t1);
    NextMemberReadsBack("country", r.country, t2);
    NextMemberReadsBack("preferredLanguage", r.preferredLanguage, "}");
    DecodeMembersOf(t0, t1, t2, r);
  }
}
