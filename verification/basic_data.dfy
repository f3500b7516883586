/**
  The "Basic Data" sheet as the runner uses it: the mail settings, the
  recipient lists parsed from it, and `get_role_id`, the lookup helper that
  checkpoint and request-data expressions call.
 */
module BasicData {
  import opened Wrappers
  import opened Text

  /** The settings read from the first sheet (cell values already taken as text or numbers). */
  datatype Settings = Settings(
    mailToAll: string,
    mailToMe: string,
    ifMail: int,
    mailSub: string,
    contactPhone: string,
    contactName: string,
    mailContentRandom: string)

  /** `value.strip().replace(' ', '').split(',')`: the recipient list of a `mail_to_*` cell. */
  function Recipients(value: string): (r: seq<string>)
    ensures |r| >= 1
    ensures forall k :: 0 <= k < |r| ==> ' ' !in r[k] && ',' !in r[k]
    ensures Join(r, ',') == RemoveSpaces(Strip(value))
  {
    var compact := RemoveSpaces(Strip(value));
    var r := Split(compact, ',');
    assert forall k :: 0 <= k < |r| ==> ' ' !in r[k] by {
      forall k | 0 <= k < |r| ensures ' ' !in r[k] {
        JoinedPartsOmit(r, ',', ' ', k);
      }
    }
    r
  }

  /** A character absent from a join is absent from every joined part. */
  lemma {:induction false} JoinedPartsOmit(parts: seq<string>, sep: char, c: char, k: nat)
    requires |parts| >= 1 && k < |parts|
    requires c !in Join(parts, sep)
    ensures c !in parts[k]
    decreases |parts|
  {
    if |parts| > 1 {
      var rest := Join(parts[1..], sep);
      assert Join(parts, sep) == parts[0] + [sep] + rest;
      if k == 0 {
        assert forall m :: 0 <= m < |parts[0]| ==> parts[0][m] == Join(parts, sep)[m];
      } else {
        assert forall m :: 0 <= m < |rest| ==> rest[m] == Join(parts, sep)[|parts[0]| + 1 + m];
        JoinedPartsOmit(parts[1..], sep, c, k - 1);
      }
    }
  }

  /** Recipient lists written without spaces or commas in the addresses read back as written. */
  lemma RecipientsOfList(addresses: seq<string>)
    requires |addresses| >= 1
    requires forall k :: 0 <= k < |addresses| ==> ' ' !in addresses[k] && ',' !in addresses[k]
    requires |addresses[0]| > 0 && |addresses[|addresses| - 1]| > 0
    requires !IsSpace(addresses[0][0]) && !IsSpace(Last(addresses)[|Last(addresses)| - 1])
    ensures Recipients(Join(addresses, ',')) == addresses
  {
    var s := Join(addresses, ',');
    JoinBounds(addresses, ',');
    StripUnchanged(s);
    JoinOmits(addresses, ',', ' ');
    RemoveSpacesFixpoint(s);
    SplitJoin(addresses, ',');
  }

  function Last(addresses: seq<string>): string
    requires |addresses| >= 1
  {
    addresses[|addresses| - 1]
  }

  lemma JoinBounds(parts: seq<string>, sep: char)
    requires |parts| >= 1 && |parts[0]| > 0 && |Last(parts)| > 0
    ensures var s := Join(parts, sep); |s| > 0 && s[0] == parts[0][0] && s[|s| - 1] == Last(parts)[|Last(parts)| - 1]
    decreases |parts|
  {
    JoinBoundsTail(parts, sep);
  }

  lemma {:induction false} JoinBoundsTail(parts: seq<string>, sep: char)
    requires |parts| >= 1 && |Last(parts)| > 0
    ensures var s := Join(parts, sep); |s| > 0 && s[|s| - 1] == Last(parts)[|Last(parts)| - 1]
    decreases |parts|
  {
    if |parts| > 1 {
      assert Last(parts[1..]) == Last(parts);
      JoinBoundsTail(parts[1..], sep);
    }
  }

  lemma {:induction false} JoinOmits(parts: seq<string>, sep: char, c: char)
    requires |parts| >= 1 && c != sep
    requires forall k :: 0 <= k < |parts| ==> c !in parts[k]
    ensures c !in Join(parts, sep)
    decreases |parts|
  {
    if |parts| > 1 {
      JoinOmits(parts[1..], sep, c);
    }
  }

  lemma StripUnchanged(s: string)
    requires |s| > 0 && !IsSpace(s[0]) && !IsSpace(s[|s| - 1])
    ensures Strip(s) == s
  {
  }

  // ---------------------------------------------------------------- get_role_id

  /** One entry of `res_role_query['data']['list']`. */
  datatype Role<Id> = Role(name: string, id: Id)

  /** `get_role_id`: the id of the first role with the given name, or `None` when there is none. */
  function RoleId<Id>(roles: seq<Role<Id>>, name: string): (r: Option<Id>)
    ensures r.None? <==> forall k :: 0 <= k < |roles| ==> roles[k].name != name
    ensures r.Some? ==> exists k :: 0 <= k < |roles| && roles[k].name == name && roles[k].id == r.value
                          && forall m :: 0 <= m < k ==> roles[m].name != name
  {
    if |roles| == 0 then None
    else if roles[0].name == name then Some(roles[0].id)
    else
      var r := RoleId(roles[1..], name);
      assert forall k :: 1 <= k < |roles| ==> roles[k] == roles[1..][k - 1];
      r
  }
}
