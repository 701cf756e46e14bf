/**
 * The shared validation schemas: three string enumerations and the two
 * address shapes.  Parsing takes a JavaScript value and either returns
 * the typed value or reports what is wrong with it.
 */
module Schemas {
  import opened Wrappers
  import opened JsValue

  datatype SchemaError =
    | InvalidEnumValue(received: Value)
    | ExpectedObject(received: Value)
    | InvalidFields(keys: seq<AddressKey>)

  // =====================================================================
  // Enumerations
  // =====================================================================

  /** The first of `options` whose name is `s`: how `z.enum` looks a string up. */
  function FindByName<T>(options: seq<T>, name: T -> string, s: string): (r: Option<T>)
    ensures r.Some? ==> r.value in options && name(r.value) == s
    ensures r.None? ==> forall x :: x in options ==> name(x) != s
  {
    if options == [] then None
    else if name(options[0]) == s then Some(options[0])
    else FindByName(options[1..], name, s)
  }

  /** `z.enum(options).parse(v)`: a string that names one of the options. */
  function ParseEnum<T>(options: seq<T>, name: T -> string, v: Value): (r: Result<T, SchemaError>)
    ensures r.Ok? ==> r.value in options && v == Str(name(r.value))
    ensures r.Err? ==> r.error == InvalidEnumValue(v) && forall x :: x in options ==> v != Str(name(x))
  {
    if !v.Str? then Err(InvalidEnumValue(v))
    else
      match FindByName(options, name, v.s)
      case Some(x) => Ok(x)
      case None => Err(InvalidEnumValue(v))
  }

  datatype Rarity = Common | Uncommon | Rare | VeryRare | Legendary

  function RarityName(r: Rarity): string
  {
    match r
    case Common => "common"
    case Uncommon => "uncommon"
    case Rare => "rare"
    case VeryRare => "very_rare"
    case Legendary => "legendary"
  }

  const RarityOptions: seq<Rarity> := [Common, Uncommon, Rare, VeryRare, Legendary]

  /** `RarityEnum.parse` */
  function ParseRarity(v: Value): (r: Result<Rarity, SchemaError>)
    ensures r.Ok? ==> v == Str(RarityName(r.value))
    ensures r.Err? ==> r.error == InvalidEnumValue(v)
  {
    ParseEnum(RarityOptions, RarityName, v)
  }

  /** Every rarity parses back from its name: the enumeration accepts exactly the five names. */
  lemma RarityRoundTrip(r: Rarity)
    ensures ParseRarity(Str(RarityName(r))) == Ok(r)
  {
    assert r in RarityOptions;
  }

  datatype StampCondition = Mint | Used | Fine | VeryFine

  function StampConditionName(c: StampCondition): string
  {
    match c
    case Mint => "mint"
    case Used => "used"
    case Fine => "fine"
    case VeryFine => "very_fine"
  }

  const StampConditionOptions: seq<StampCondition> := [Mint, Used, Fine, VeryFine]

  /** `StampConditionEnum.parse` */
  function ParseStampCondition(v: Value): (r: Result<StampCondition, SchemaError>)
    ensures r.Ok? ==> v == Str(StampConditionName(r.value))
    ensures r.Err? ==> r.error == InvalidEnumValue(v)
  {
    ParseEnum(StampConditionOptions, StampConditionName, v)
  }

  lemma StampConditionRoundTrip(c: StampCondition)
    ensures ParseStampCondition(Str(StampConditionName(c))) == Ok(c)
  {
    assert c in StampConditionOptions;
  }

  datatype ShippingCompany = Dhl | FedEx | Ups | Usps | Aramex

  function ShippingCompanyName(c: ShippingCompany): string
  {
    match c
    case Dhl => "DHL"
    case FedEx => "FedEx"
    case Ups => "UPS"
    case Usps => "USPS"
    case Aramex => "Aramex"
  }

  const ShippingCompanyOptions: seq<ShippingCompany> := [Dhl, FedEx, Ups, Usps, Aramex]

  /** `ShippingCompanyEnum.parse` */
  function ParseShippingCompany(v: Value): (r: Result<ShippingCompany, SchemaError>)
    ensures r.Ok? ==> v == Str(ShippingCompanyName(r.value))
    ensures r.Err? ==> r.error == InvalidEnumValue(v)
  {
    ParseEnum(ShippingCompanyOptions, ShippingCompanyName, v)
  }

  lemma ShippingCompanyRoundTrip(c: ShippingCompany)
    ensures ParseShippingCompany(Str(ShippingCompanyName(c))) == Ok(c)
  {
    assert c in ShippingCompanyOptions;
  }

  /** The rarity enumeration is case-sensitive: the spellings from the enumeration tests are refused. */
  lemma RarityCaseExamples(s: string, t: string)
    requires s == "Common" && t == "RARE"
    ensures ParseRarity(Str(s)).Err? && ParseRarity(Str(t)).Err? && ParseRarity(Str("")).Err?
  {
    assert s[0] != 'c' && |s| == 6 && |t| == 4 && t[0] != 'r';
  }

  /** The condition enumeration is case-sensitive. */
  lemma StampConditionCaseExamples(s: string, t: string)
    requires s == "Mint" && t == "USED"
    ensures ParseStampCondition(Str(s)).Err? && ParseStampCondition(Str(t)).Err?
  {
    assert s[0] != 'm' && s[0] != 'u' && s[0] != 'f' && |s| == 4;
    assert t[0] != 'm' && t[0] != 'u' && t[0] != 'f' && |t| == 4;
  }

  /** The shipping-company enumeration is case-sensitive. */
  lemma ShippingCompanyCaseExamples(s: string, t: string)
    requires s == "dhl" && t == "fedex"
    ensures ParseShippingCompany(Str(s)).Err? && ParseShippingCompany(Str(t)).Err?
  {
    assert s[0] == 'd' && t[0] == 'f';
  }

  // =====================================================================
  // Addresses
  // =====================================================================

  /** `Address`: `state` and `phone` may be absent. */
  datatype Address = Address(fullName: string, street: string, city: string, state: Option<string>,
                             zipCode: string, country: string, phone: Option<string>)

  /** The keys of the address schema, in declaration order. */
  datatype AddressKey = FullName | Street | City | State | ZipCode | Country | Phone

  const AddressKeys: seq<AddressKey> := [FullName, Street, City, State, ZipCode, Country, Phone]

  function KeyName(k: AddressKey): string
  {
    match k
    case FullName => "fullName"
    case Street => "street"
    case City => "city"
    case State => "state"
    case ZipCode => "zipCode"
    case Country => "country"
    case Phone => "phone"
  }

  predicate IsRequired(k: AddressKey)
  {
    k != State && k != Phone
  }

  /** `z.string().min(1)` */
  predicate NonEmptyString(v: Value)
  {
    v.Str? && |v.s| >= 1
  }

  /** `z.string().optional()` */
  predicate OptionalString(v: Value)
  {
    v.Undefined? || v.Str?
  }

  /** What the schema demands of the value at one key. */
  predicate FieldValid(v: Value, k: AddressKey)
  {
    if IsRequired(k) then NonEmptyString(Field(v, KeyName(k))) else OptionalString(Field(v, KeyName(k)))
  }

  function IssuesAmong(v: Value, keys: seq<AddressKey>): (issues: seq<AddressKey>)
    ensures forall k :: k in issues <==> k in keys && !FieldValid(v, k)
    ensures issues == [] <==> forall k :: k in keys ==> FieldValid(v, k)
  {
    if keys == [] then []
    else (if FieldValid(v, keys[0]) then [] else [keys[0]]) + IssuesAmong(v, keys[1..])
  }

  /** The keys whose value the address schema refuses, in declaration order. */
  function AddressIssues(v: Value): (issues: seq<AddressKey>)
    ensures forall k :: k in issues <==> !FieldValid(v, k)
    ensures issues == [] <==> forall k :: FieldValid(v, k)
  {
    AllKeysListed();
    IssuesAmong(v, AddressKeys)
  }

  lemma AllKeysListed()
    ensures forall k :: k in AddressKeys
  {
    forall k ensures k in AddressKeys {
      match k
      case FullName => assert AddressKeys[0] == k;
      case Street => assert AddressKeys[1] == k;
      case City => assert AddressKeys[2] == k;
      case State => assert AddressKeys[3] == k;
      case ZipCode => assert AddressKeys[4] == k;
      case Country => assert AddressKeys[5] == k;
      case Phone => assert AddressKeys[6] == k;
    }
  }

  /** The required fields of an address are not empty. */
  predicate Complete(a: Address)
  {
    a.fullName != "" && a.street != "" && a.city != "" && a.zipCode != "" && a.country != ""
  }

  function OptionalValue(v: Value): Option<string>
  {
    if v.Str? then Some(v.s) else None
  }

  function OptionalToValue(o: Option<string>): Value
  {
    match o
    case Some(s) => Str(s)
    case None => Undefined
  }

  /** The value an address holds at a key; an absent optional field is `undefined`. */
  function Get(a: Address, k: AddressKey): Value
  {
    match k
    case FullName => Str(a.fullName)
    case Street => Str(a.street)
    case City => Str(a.city)
    case State => OptionalToValue(a.state)
    case ZipCode => Str(a.zipCode)
    case Country => Str(a.country)
    case Phone => OptionalToValue(a.phone)
  }

  function OptionalEntry(key: string, o: Option<string>): map<string, Value>
  {
    match o
    case Some(s) => map[key := Str(s)]
    case None => map[]
  }

  /** An address as the object it is written as; absent optional fields have no key. */
  function AddressToValue(a: Address): Value
  {
    Obj(map["fullName" := Str(a.fullName), "street" := Str(a.street), "city" := Str(a.city),
            "zipCode" := Str(a.zipCode), "country" := Str(a.country)]
        + OptionalEntry("state", a.state) + OptionalEntry("phone", a.phone))
  }

  /** The written object holds the address's value at every key of the schema. */
  lemma AddressToValueFields(a: Address)
    ensures forall k :: Field(AddressToValue(a), KeyName(k)) == Get(a, k)
  {
    var m := AddressToValue(a).fields;
    forall k ensures Field(AddressToValue(a), KeyName(k)) == Get(a, k) {
      match k
      case FullName => assert m["fullName"] == Str(a.fullName);
      case Street => assert m["street"] == Str(a.street);
      case City => assert m["city"] == Str(a.city);
      case State =>
      case ZipCode => assert m["zipCode"] == Str(a.zipCode);
      case Country => assert m["country"] == Str(a.country);
      case Phone =>
    }
  }

  /** `AddressSchema.parse`: every listed key is checked; unknown keys are dropped. */
  function ParseAddress(v: Value): (r: Result<Address, SchemaError>)
    ensures r.Ok? ==> Complete(r.value) && forall k :: Field(v, KeyName(k)) == Get(r.value, k)
    ensures r.Err? ==> (!v.Obj? && r.error == ExpectedObject(v)) ||
                       (v.Obj? && r.error == InvalidFields(AddressIssues(v)) && AddressIssues(v) != [])
  {
    if !v.Obj? then Err(ExpectedObject(v))
    else
      var issues := AddressIssues(v);
      if issues != [] then Err(InvalidFields(issues))
      else
        assert forall k :: FieldValid(v, k) by {
          forall k ensures FieldValid(v, k) { assert k !in issues; }
        }
        assert FieldValid(v, FullName) && FieldValid(v, Street) && FieldValid(v, City) &&
               FieldValid(v, ZipCode) && FieldValid(v, Country);
        var a := Address(Field(v, KeyName(FullName)).s, Field(v, KeyName(Street)).s, Field(v, KeyName(City)).s,
                         OptionalValue(Field(v, KeyName(State))), Field(v, KeyName(ZipCode)).s,
                         Field(v, KeyName(Country)).s, OptionalValue(Field(v, KeyName(Phone))));
        assert forall k :: Field(v, KeyName(k)) == Get(a, k) by {
          forall k ensures Field(v, KeyName(k)) == Get(a, k) {
            assert FieldValid(v, k);
          }
        }
        Ok(a)
  }

  /** A complete address written as an object parses back to itself. */
  lemma AddressRoundTrip(a: Address)
    requires Complete(a)
    ensures ParseAddress(AddressToValue(a)) == Ok(a)
  {
    AddressToValueFields(a);
    var v := AddressToValue(a);
    assert AddressIssues(v) == [] by {
      forall k ensures FieldValid(v, k) {
        assert Field(v, KeyName(k)) == Get(a, k);
      }
    }
    GetDetermines(ParseAddress(v).value, a);
  }

  /** An address is determined by its values at the schema's keys. */
  lemma GetDetermines(a: Address, b: Address)
    requires forall k :: Get(a, k) == Get(b, k)
    ensures a == b
  {
    assert Get(a, FullName) == Get(b, FullName) && Get(a, Street) == Get(b, Street);
    assert Get(a, City) == Get(b, City) && Get(a, State) == Get(b, State);
    assert Get(a, ZipCode) == Get(b, ZipCode) && Get(a, Country) == Get(b, Country);
    assert Get(a, Phone) == Get(b, Phone);
  }

  /** Any required field that is empty, missing or not a string makes the parse fail, naming that key. */
  lemma MissingRequiredFieldRejected(v: Value, k: AddressKey)
    requires IsRequired(k)
    requires !NonEmptyString(Field(v, KeyName(k)))
    ensures ParseAddress(v).Err?
    ensures v.Obj? ==> k in ParseAddress(v).error.keys
  {
  }

  /** `OptionalAddressSchema`'s object: five strings, of any length. */
  datatype ShortAddress = ShortAddress(fullName: string, street: string, city: string, zipCode: string, country: string)

  /** `OptionalAddressSchema.parse`: `undefined`, or an object with the five fields as strings. */
  function ParseOptionalAddress(v: Value): (r: Result<Option<ShortAddress>, SchemaError>)
    ensures v.Undefined? <==> r == Ok(None)
    ensures r.Ok? && r.value.Some? ==>
              v.Obj? && forall k :: IsRequired(k) ==> Field(v, KeyName(k)).Str?
    ensures r.Ok? && r.value.Some? ==>
              Field(v, "fullName") == Str(r.value.value.fullName) && Field(v, "street") == Str(r.value.value.street) &&
              Field(v, "city") == Str(r.value.value.city) && Field(v, "zipCode") == Str(r.value.value.zipCode) &&
              Field(v, "country") == Str(r.value.value.country)
    ensures r.Err? ==> !v.Undefined?
    ensures v.Obj? && (forall k :: IsRequired(k) ==> Field(v, KeyName(k)).Str?) ==> r.Ok? && r.value.Some?
  {
    if v.Undefined? then Ok(None)
    else if !v.Obj? then Err(ExpectedObject(v))
    else
      var bad := (if Field(v, KeyName(FullName)).Str? then [] else [FullName]) +
                 (if Field(v, KeyName(Street)).Str? then [] else [Street]) +
                 (if Field(v, KeyName(City)).Str? then [] else [City]) +
                 (if Field(v, KeyName(ZipCode)).Str? then [] else [ZipCode]) +
                 (if Field(v, KeyName(Country)).Str? then [] else [Country]);
      if bad != [] then Err(InvalidFields(bad))
      else Ok(Some(ShortAddress(Field(v, KeyName(FullName)).s, Field(v, KeyName(Street)).s, Field(v, KeyName(City)).s,
                                Field(v, KeyName(ZipCode)).s, Field(v, KeyName(Country)).s)))
  }

  /** Whatever the full address schema accepts, the optional one accepts with the same five values. */
  lemma AddressImpliesOptional(v: Value)
    requires ParseAddress(v).Ok?
    ensures var a := ParseAddress(v).value;
            ParseOptionalAddress(v) == Ok(Some(ShortAddress(a.fullName, a.street, a.city, a.zipCode, a.country)))
  {
    var a := ParseAddress(v).value;
    assert Field(v, KeyName(FullName)) == Get(a, FullName);
    assert Field(v, KeyName(Street)) == Get(a, Street);
    assert Field(v, KeyName(City)) == Get(a, City);
    assert Field(v, KeyName(ZipCode)) == Get(a, ZipCode);
    assert Field(v, KeyName(Country)) == Get(a, Country);
  }

  /**
   * The optional schema puts no length bound on its strings: an object
   * whose `fullName` is empty is accepted, where the full schema refuses it.
   */
  lemma OptionalAcceptsEmptyName(v: Value)
    requires v.Obj? && Field(v, "fullName") == Str("")
    requires Field(v, "street").Str? && Field(v, "city").Str? && Field(v, "zipCode").Str? && Field(v, "country").Str?
    ensures ParseOptionalAddress(v).Ok? && ParseOptionalAddress(v).value.Some?
    ensures ParseOptionalAddress(v).value.value.fullName == ""
    ensures ParseAddress(v).Err?
  {
    MissingRequiredFieldRejected(v, FullName);
  }
}
