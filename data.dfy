/** The key-value store of data.go: guest codes per (location, member) and
    the per-location "guest code required" flag, under string keys built
    with `%d`. The Redis server becomes a `map<string, string>` field. */
module Data {
  import opened Types
  import opened Api

  /** `fmt.Sprintf("code:%d:%d", location, member_id)`. */
  function CodeKey(location: Int64, member: Int64): string {
    "code:" + Decimal(location) + ":" + Decimal(member)
  }

  /** `fmt.Sprintf("code_required:%d", location)`. */
  function RequirementKey(location: Int64): string {
    "code_required:" + Decimal(location)
  }

  /** What `GetCodeRequirement` makes of the store: no key is unknown, the
      text "true" is required, any other text is not required. */
  function RequirementIn(kv: map<string, string>, location: Int64): (r: CodeRequirement)
    ensures r == Unknown <==> RequirementKey(location) !in kv
    ensures r == GuestCodeRequired <==> RequirementKey(location) in kv && kv[RequirementKey(location)] == "true"
  {
    var key := RequirementKey(location);
    if key !in kv then Unknown
    else if kv[key] == "true" then GuestCodeRequired
    else GuestCodeNotRequired
  }

  /** `LocationExists`: whether the cache index has `uint(location)`, that
      is, whether some cached location has that id. */
  function LocationExists(session: Session, location: Int64): (b: bool)
    requires session.Valid()
    reads session
    ensures b <==> exists i :: 0 <= i < |session.cachedLocations| && session.cachedLocations[i].id == ToUint(location)
  {
    IndexByIdKeys(session.cachedLocations);
    ToUint(location) in session.cachedLocationsMap
  }

  // ---------------------------------------------------------------- keys

  lemma DecimalHasNoColon(n: int)
    ensures ':' !in Decimal(n)
  {
    assert forall i :: 0 <= i < |Decimal(n)| ==> Decimal(n)[i] != ':';
  }

  /** Two texts without `sep`, each followed by `sep`, split uniquely. */
  lemma SplitAtSeparator(a: string, b: string, a': string, b': string, sep: char)
    requires sep !in a && sep !in a'
    requires a + [sep] + b == a' + [sep] + b'
    ensures a == a' && b == b'
  {
    var s := a + [sep] + b;
    assert s == a' + [sep] + b';
    assert s[|a|] == sep && s[|a'|] == sep;
    assert forall i :: 0 <= i < |a| ==> s[i] == a[i] != sep;
    assert forall i :: 0 <= i < |a'| ==> s[i] == a'[i] != sep;
    assert |a| == |a'|;
    assert a == s[..|a|] == a';
    assert b == s[|a| + 1..] == b';
  }

  /** Equal texts with the same prefix have equal remainders. */
  lemma DropPrefix(p: string, a: string, b: string)
    requires p + a == p + b
    ensures a == b
  {
    assert a == (p + a)[|p|..];
    assert b == (p + b)[|p|..];
  }

  lemma CodeKeyShape(location: Int64, member: Int64)
    ensures CodeKey(location, member) == "code:" + (Decimal(location) + [':'] + Decimal(member))
  {
  }

  /** Distinct (location, member) pairs have distinct code keys. */
  lemma CodeKeyInjective(location: Int64, member: Int64, location': Int64, member': Int64)
    requires CodeKey(location, member) == CodeKey(location', member')
    ensures location == location' && member == member'
  {
    var d := Decimal(location) + [':'] + Decimal(member);
    var d' := Decimal(location') + [':'] + Decimal(member');
    CodeKeyShape(location, member);
    CodeKeyShape(location', member');
    DropPrefix("code:", d, d');
    DecimalHasNoColon(location);
    DecimalHasNoColon(location');
    SplitAtSeparator(Decimal(location), Decimal(member), Decimal(location'), Decimal(member'), ':');
    DecimalInjective(location, location');
    DecimalInjective(member, member');
  }

  /** Distinct locations have distinct requirement keys. */
  lemma RequirementKeyInjective(location: Int64, location': Int64)
    requires RequirementKey(location) == RequirementKey(location')
    ensures location == location'
  {
    assert RequirementKey(location)[14..] == Decimal(location);
    assert RequirementKey(location')[14..] == Decimal(location');
    DecimalInjective(location, location');
  }

  /** A code key is never a requirement key. */
  lemma KeysDisjoint(location: Int64, member: Int64, location': Int64)
    ensures CodeKey(location, member) != RequirementKey(location')
  {
    assert CodeKey(location, member)[4] == ':';
    assert RequirementKey(location')[4] == '_';
  }

  /** Writing a code leaves every requirement flag as it was. */
  lemma StoreKeepsRequirements(kv: map<string, string>, location: Int64, member: Int64, code: string, location': Int64)
    ensures RequirementIn(kv[CodeKey(location, member) := code], location') == RequirementIn(kv, location')
  {
    KeysDisjoint(location, member, location');
  }

  /** Deleting a code leaves every requirement flag as it was. */
  lemma RemoveKeepsRequirements(kv: map<string, string>, location: Int64, member: Int64, location': Int64)
    ensures RequirementIn(kv - {CodeKey(location, member)}, location') == RequirementIn(kv, location')
  {
    KeysDisjoint(location, member, location');
  }

  /** Setting one location's flag to `stored` makes its requirement "true"
      exactly when `stored` is the text "true", and leaves every other
      location's requirement and every code as it was. */
  lemma SetRequirementEffect(kv: map<string, string>, location: Int64, stored: string)
    ensures RequirementIn(kv[RequirementKey(location) := stored], location)
            == (if stored == "true" then GuestCodeRequired else GuestCodeNotRequired)
    ensures forall l: Int64 :: l != location ==>
              RequirementIn(kv[RequirementKey(location) := stored], l) == RequirementIn(kv, l)
    ensures forall l: Int64, m: Int64 :: CodeKey(l, m) in kv[RequirementKey(location) := stored] <==> CodeKey(l, m) in kv
    ensures forall l: Int64, m: Int64 :: CodeKey(l, m) in kv ==>
              kv[RequirementKey(location) := stored][CodeKey(l, m)] == kv[CodeKey(l, m)]
  {
    forall l: Int64 | l != location
      ensures RequirementIn(kv[RequirementKey(location) := stored], l) == RequirementIn(kv, l)
    {
      if RequirementKey(l) == RequirementKey(location) { RequirementKeyInjective(l, location); }
    }
    forall l: Int64, m: Int64 ensures CodeKey(l, m) != RequirementKey(location) {
      KeysDisjoint(l, m, location);
    }
  }

  /** Writing a code for one pair leaves every other pair's code as it was. */
  lemma StoreKeepsOtherCodes(kv: map<string, string>, location: Int64, member: Int64, code: string,
                             location': Int64, member': Int64)
    requires location != location' || member != member'
    ensures CodeKey(location', member') in kv[CodeKey(location, member) := code] <==> CodeKey(location', member') in kv
    ensures CodeKey(location', member') in kv ==>
              kv[CodeKey(location, member) := code][CodeKey(location', member')] == kv[CodeKey(location', member')]
  {
    if CodeKey(location, member) == CodeKey(location', member') {
      CodeKeyInjective(location, member, location', member');
    }
  }

  /** Deleting a code leaves no code for that pair, and deleting it again
      leaves the store as the first deletion left it. */
  lemma RemoveIdempotent(kv: map<string, string>, location: Int64, member: Int64)
    ensures CodeKey(location, member) !in kv - {CodeKey(location, member)}
    ensures (kv - {CodeKey(location, member)}) - {CodeKey(location, member)} == kv - {CodeKey(location, member)}
  {
  }

  // ---------------------------------------------------------------- the store

  /** The Redis database as the bot uses it. */
  class Store {
    var kv: map<string, string>

    constructor()
      ensures kv == map[]
    {
      kv := map[];
    }

    /** `StoreCode`: whether a code was already there, then the new code. */
    method StoreCode(code: string, location: Int64, member: Int64) returns (alreadySet: bool)
      modifies this
      ensures alreadySet <==> CodeKey(location, member) in old(kv)
      ensures kv == old(kv)[CodeKey(location, member) := code]
    {
      var key := CodeKey(location, member);
      alreadySet := key in kv;
      kv := kv[key := code];
    }

    /** `GetCode`, as written: the stored code ("" when there is none), and
        a flag that is true exactly when NO code is stored (it compares the
        error with `redis.Nil`). */
    method GetCode(location: Int64, member: Int64) returns (code: string, absent: bool)
      ensures absent <==> CodeKey(location, member) !in kv
      ensures !absent ==> code == kv[CodeKey(location, member)]
      ensures absent ==> code == ""
    {
      var key := CodeKey(location, member);
      if key in kv {
        code, absent := kv[key], false;
      } else {
        code, absent := "", true;
      }
    }

    /** `RemoveCode`. */
    method RemoveCode(location: Int64, member: Int64)
      modifies this
      ensures kv == old(kv) - {CodeKey(location, member)}
    {
      kv := kv - {CodeKey(location, member)};
    }

    /** `SetCodeRequirement`; `encode` is the text the Redis client writes
        for a Go `bool`. */
    method SetCodeRequirement(location: Int64, required: bool, encode: bool -> string)
      modifies this
      ensures kv == old(kv)[RequirementKey(location) := encode(required)]
    {
      kv := kv[RequirementKey(location) := encode(required)];
    }

    /** `GetCodeRequirement`. */
    method GetCodeRequirement(location: Int64) returns (r: CodeRequirement)
      ensures r == RequirementIn(kv, location)
      ensures r == Unknown <==> RequirementKey(location) !in kv
    {
      var key := RequirementKey(location);
      if key !in kv {
        return Unknown;
      }
      if kv[key] == "true" {
        return GuestCodeRequired;
      }
      return GuestCodeNotRequired;
    }
  }
}
