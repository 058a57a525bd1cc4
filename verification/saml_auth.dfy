/** saml_auth.py: how the attribute statements of a SAML response become the
    user record {email, firstname, lastname, name}, and when process_response
    accepts that record. Decoding and XML parsing happen before this model
    starts: a response arrives as its attribute statements. */
module Saml {
  import opened Common

  /** One `saml:Attribute` element as the XML parser exposes it: its `Name`
      (`""` when the attribute is absent) and the text of its first
      `saml:AttributeValue` child (None when there is no such child or the
      child has no text). */
  datatype Attribute = Attribute(name: string, value: Option<string>)

  /** A parsed response: its `saml:AttributeStatement` elements in document
      order, each with its `saml:Attribute` children in order. */
  type Statements = seq<seq<Attribute>>

  /** The `user_data` dictionary. */
  type UserData = map<string, string>

  const EMAIL: string := "email"
  const FIRSTNAME: string := "firstname"
  const LASTNAME: string := "lastname"
  const NAME: string := "name"
  const USER_DATA_KEYS: set<string> := {EMAIL, FIRSTNAME, LASTNAME, NAME}

  /** The if/elif chain of substring tests on the lower-cased attribute
      name: the first test that matches decides the key. */
  function KeyFor(lowerName: string): (k: Option<string>)
    ensures k.Some? ==> k.value in USER_DATA_KEYS
  {
    if Contains(lowerName, "emailaddress") || Contains(lowerName, "email") then Some(EMAIL)
    else if Contains(lowerName, "givenname") || Contains(lowerName, "firstname") then Some(FIRSTNAME)
    else if Contains(lowerName, "surname") || Contains(lowerName, "lastname") then Some(LASTNAME)
    else if Contains(lowerName, "displayname") || Contains(lowerName, "name") then Some(NAME)
    else None
  }

  /** Every longer pattern of the chain contains "email" or "name", so a
      name is filed under some key exactly when it contains one of those two
      words, and anything mentioning "email" is filed as the e-mail. */
  lemma KeyForCoverage(lowerName: string)
    ensures KeyFor(lowerName).None? <==> !Contains(lowerName, "email") && !Contains(lowerName, "name")
    ensures Contains(lowerName, "email") ==> KeyFor(lowerName) == Some(EMAIL)
  {
    assert OccursAt("emailaddress", "email", 0);
    assert OccursAt("givenname", "name", 5);
    assert OccursAt("firstname", "name", 5);
    assert OccursAt("surname", "name", 3);
    assert OccursAt("lastname", "name", 4);
    assert OccursAt("displayname", "name", 7);
    if Contains(lowerName, "emailaddress") {
      ContainsTransitive(lowerName, "emailaddress", "email");
    }
    if Contains(lowerName, "givenname") {
      ContainsTransitive(lowerName, "givenname", "name");
    }
    if Contains(lowerName, "firstname") {
      ContainsTransitive(lowerName, "firstname", "name");
    }
    if Contains(lowerName, "surname") {
      ContainsTransitive(lowerName, "surname", "name");
    }
    if Contains(lowerName, "lastname") {
      ContainsTransitive(lowerName, "lastname", "name");
    }
    if Contains(lowerName, "displayname") {
      ContainsTransitive(lowerName, "displayname", "name");
    }
  }

  /** What one attribute writes into `user_data`, if anything: the key and
      the text. Nothing unless the value element has non-empty text. */
  function Assignment(a: Attribute): (r: Option<(string, string)>)
    ensures r.Some? ==> a.value == Some(r.value.1) && r.value.1 != "" && r.value.0 in USER_DATA_KEYS
  {
    if a.value.Some? && a.value.value != "" then
      match KeyFor(Lower(a.name))
      case Some(k) => Some((k, a.value.value))
      case None => None
    else None
  }

  predicate AssignsTo(a: Attribute, key: string) {
    Assignment(a).Some? && Assignment(a).value.0 == key
  }

  /** `user_data` after the attributes `attrs` have been visited in order:
      only the four keys are ever written, and only non-empty texts. */
  function Collected(attrs: seq<Attribute>): (r: UserData)
    ensures r.Keys <= USER_DATA_KEYS
    ensures forall k :: k in r ==> r[k] != ""
  {
    if attrs == [] then map[]
    else
      var before := Collected(attrs[..|attrs| - 1]);
      match Assignment(attrs[|attrs| - 1])
      case Some((k, text)) => before[k := text]
      case None => before
  }

  /** All attributes of all statements, in document order. */
  function Flatten(statements: Statements): seq<Attribute>
  {
    if statements == [] then []
    else Flatten(statements[..|statements| - 1]) + statements[|statements| - 1]
  }

  /** The post-loop fix-up: build `name` from `firstname` and `lastname`
      when it is missing. Entries already present are never replaced. */
  function WithFullName(m: UserData): (r: UserData)
    ensures forall k :: k in m ==> k in r && r[k] == m[k]
    ensures r.Keys == if NAME !in m && FIRSTNAME in m && LASTNAME in m then m.Keys + {NAME} else m.Keys
    ensures NAME in r && NAME !in m ==> r[NAME] == m[FIRSTNAME] + " " + m[LASTNAME]
  {
    if NAME !in m && FIRSTNAME in m && LASTNAME in m then m[NAME := m[FIRSTNAME] + " " + m[LASTNAME]]
    else m
  }

  /** What `extract_user_attributes` returns for a parsed response: its keys
      are a subset of {email, firstname, lastname, name} and no value is
      empty. */
  function UserAttributes(statements: Statements): (r: UserData)
    ensures r.Keys <= USER_DATA_KEYS
    ensures forall k :: k in r ==> r[k] != ""
  {
    WithFullName(Collected(Flatten(statements)))
  }

  // ---------------------------------------------------------------------
  // Properties of the classifier
  // ---------------------------------------------------------------------

  /** A key is present exactly when some attribute is filed under it. */
  lemma {:induction false} CollectedHasKey(attrs: seq<Attribute>, key: string)
    ensures key in Collected(attrs) <==> exists i :: 0 <= i < |attrs| && AssignsTo(attrs[i], key)
  {
    if attrs != [] {
      var init := attrs[..|attrs| - 1];
      CollectedHasKey(init, key);
      assert forall i :: 0 <= i < |init| ==> init[i] == attrs[i];
      if exists i :: 0 <= i < |attrs| && AssignsTo(attrs[i], key) {
        var i :| 0 <= i < |attrs| && AssignsTo(attrs[i], key);
        if i < |init| {
          assert AssignsTo(init[i], key);
        }
      }
    }
  }

  /** When several attributes are filed under the same key, the last one in
      document order wins. */
  lemma {:induction false} CollectedLastWins(attrs: seq<Attribute>, key: string, i: int)
    requires 0 <= i < |attrs| && AssignsTo(attrs[i], key)
    requires forall j :: i < j < |attrs| ==> !AssignsTo(attrs[j], key)
    ensures key in Collected(attrs) && Collected(attrs)[key] == Assignment(attrs[i]).value.1
  {
    var init := attrs[..|attrs| - 1];
    if i < |attrs| - 1 {
      assert init[i] == attrs[i];
      assert forall j :: i < j < |init| ==> init[j] == attrs[j];
      CollectedLastWins(init, key, i);
    }
  }

  /** Visiting one more attribute applies its assignment, if any. */
  lemma CollectedSnoc(attrs: seq<Attribute>, a: Attribute)
    ensures Collected(attrs + [a]) == match Assignment(a)
      case Some((k, text)) => Collected(attrs)[k := text]
      case None => Collected(attrs)
  {
  }

  /** An attribute without text contributes nothing: dropping every such
      attribute first gives the same record. */
  lemma {:induction false} TextlessIgnored(attrs: seq<Attribute>)
    ensures Collected(Filter(attrs, HasText)) == Collected(attrs)
  {
    if attrs != [] {
      var init, last := attrs[..|attrs| - 1], attrs[|attrs| - 1];
      assert attrs == init + [last];
      FilterAppend(init, [last], HasText);
      TextlessIgnored(init);
      assert [last][1..] == [];
      if HasText(last) {
        assert Filter([last], HasText) == [last];
        CollectedSnoc(Filter(init, HasText), last);
      } else {
        assert Filter([last], HasText) == [];
        assert Filter(init, HasText) + [] == Filter(init, HasText);
        assert Assignment(last).None?;
      }
      CollectedSnoc(init, last);
    }
  }

  predicate HasText(a: Attribute) {
    a.value.Some? && a.value.value != ""
  }

  /** Names are compared after lower-casing, so the case of the `Name`
      attribute does not matter. */
  lemma ClassifierIgnoresCase(name1: string, name2: string, value: Option<string>)
    requires Lower(name1) == Lower(name2)
    ensures Assignment(Attribute(name1, value)) == Assignment(Attribute(name2, value))
  {
  }

  /** The order of the tests decides between overlapping patterns: the
      claim URIs of Azure AD and the plain names land where expected, and
      "firstname", "surname" or "givenname" are not taken as "name". */
  lemma ClassifierExamples()
    ensures KeyFor("http://schemas.xmlsoap.org/ws/2005/05/identity/claims/emailaddress") == Some(EMAIL)
    ensures KeyFor("firstname") == Some(FIRSTNAME)
    ensures KeyFor("givenname") == Some(FIRSTNAME)
    ensures KeyFor("surname") == Some(LASTNAME)
    ensures KeyFor("displayname") == Some(NAME)
    ensures KeyFor("upn") == None
  {
    var uri := "http://schemas.xmlsoap.org/ws/2005/05/identity/claims/emailaddress";
    assert OccursAt(uri, "emailaddress", |uri| - 12);
    assert OccursAt("firstname", "firstname", 0);
    assert OccursAt("givenname", "givenname", 0);
    assert OccursAt("surname", "surname", 0);
    assert OccursAt("displayname", "displayname", 0);
    Missing("firstname", "email", 4);
    Missing("givenname", "email", 4);
    Missing("surname", "email", 4);
    Missing("displayname", "email", 0);
    Missing("displayname", "givenname", 0);
    Missing("displayname", "firstname", 0);
    Missing("displayname", "surname", 1);
    Missing("displayname", "lastname", 3);
  }

  /** `sub` does not occur in `s` when the character at offset `k` of `sub`
      never lines up. */
  lemma Missing(s: string, sub: string, k: int)
    requires 0 <= k < |sub|
    requires forall j :: k <= j <= |s| - |sub| + k ==> s[j] != sub[k]
    ensures !Contains(s, sub)
  {
    forall i | 0 <= i <= |s| - |sub| ensures !OccursAt(s, sub, i) {
      assert s[i..i + |sub|][k] == s[i + k];
    }
  }

  // ---------------------------------------------------------------------
  // The two methods of SAMLAuth
  // ---------------------------------------------------------------------

  /** `SAMLAuth.extract_user_attributes`: visit every attribute of every
      statement, overwrite the key its name selects, then fill in `name`. */
  method ExtractUserAttributes(statements: Statements) returns (userData: UserData)
    ensures userData == UserAttributes(statements)
    ensures userData.Keys <= USER_DATA_KEYS
    ensures forall k :: k in userData ==> userData[k] != ""
  {
    userData := map[];
    var i := 0;
    while i < |statements|
      invariant 0 <= i <= |statements|
      invariant userData == Collected(Flatten(statements[..i]))
    {
      var attributes := statements[i];
      var j := 0;
      assert Flatten(statements[..i]) + attributes[..j] == Flatten(statements[..i]);
      while j < |attributes|
        invariant 0 <= j <= |attributes|
        invariant userData == Collected(Flatten(statements[..i]) + attributes[..j])
      {
        var attribute := attributes[j];
        ghost var visited := Flatten(statements[..i]) + attributes[..j];
        assert visited + [attribute] == Flatten(statements[..i]) + attributes[..j + 1];
        CollectedSnoc(visited, attribute);
        var attrName := Lower(attribute.name);
        if attribute.value.Some? && attribute.value.value != "" {
          var text := attribute.value.value;
          var key := KeyFor(attrName);
          if key.Some? {
            userData := userData[key.value := text];
          }
        }
        j := j + 1;
      }
      assert attributes[..j] == attributes;
      assert statements[..i + 1][..i] == statements[..i];
      i := i + 1;
    }
    assert statements[..i] == statements;
    if NAME !in userData && FIRSTNAME in userData && LASTNAME in userData {
      userData := userData[NAME := userData[FIRSTNAME] + " " + userData[LASTNAME]];
    }
  }

  /** The record `get_mock_user_data` returns when decoding or parsing the
      response raises. */
  const MOCK_USER_DATA: UserData := map[
    EMAIL := "test.user@company.com",
    FIRSTNAME := "Test",
    LASTNAME := "User",
    NAME := "Test User"]

  /** `SAMLAuth.process_response`. `samlResponse` is the posted form field
      ("" when absent); `parsed` is what decoding and parsing produced, None
      when either raised. */
  method ProcessResponse(samlResponse: string, parsed: Option<Statements>) returns (r: Option<UserData>)
    ensures samlResponse == "" ==> r == None
    ensures samlResponse != "" && parsed.None? ==> r == Some(MOCK_USER_DATA)
    ensures samlResponse != "" && parsed.Some? ==>
      (r.Some? <==> exists i :: 0 <= i < |Flatten(parsed.value)| && AssignsTo(Flatten(parsed.value)[i], EMAIL))
    ensures samlResponse != "" && parsed.Some? && r.Some? ==> r.value == UserAttributes(parsed.value)
    ensures r.Some? ==> EMAIL in r.value && r.value[EMAIL] != ""
  {
    if samlResponse == "" {
      return None;
    }
    if parsed.None? {
      return Some(MOCK_USER_DATA);
    }
    var userData := ExtractUserAttributes(parsed.value);
    CollectedHasKey(Flatten(parsed.value), EMAIL);
    assert EMAIL in userData <==> EMAIL in Collected(Flatten(parsed.value));
    if EMAIL in userData && userData[EMAIL] != "" {
      r := Some(userData);
    } else {
      r := None;
    }
  }
}
