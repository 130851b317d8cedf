/**
 * The location service's country rules: countries are created and updated
 * through the country repository, and no two countries may share a name.
 * The repository is a map from id to the stored `Country` entities, and a
 * counter gives the id of the next country saved.
 */
module Locations {
  import opened Common

  datatype ErrorCode = NAME_ALREADY_EXITED | COUNTRY_NOT_FOUND

  datatype LocationError =
    | Duplicated(code: ErrorCode, name: string)
    | NotFound(code: ErrorCode, id: int)

  /** The request body for creating or updating a country. */
  datatype CountryPostVm = CountryPostVm(
    code2: string,
    name: string,
    code3: string,
    isBillingEnabled: bool,
    isShippingEnabled: bool,
    isCityEnabled: bool,
    isZipCodeEnabled: bool,
    isDistrictEnabled: bool)

  /** The stored country entity; the service changes it through its setters. */
  class Country {
    var id: int
    var code2: string
    var name: string
    var code3: string
    var isBillingEnabled: bool
    var isShippingEnabled: bool
    var isCityEnabled: bool
    var isZipCodeEnabled: bool
    var isDistrictEnabled: bool

    /** `CountryPostVm.toModel()`: a country not yet saved, with every field of the request. */
    constructor FromPostVm(vm: CountryPostVm)
      ensures id == 0 && Matches(vm) && code2 == vm.code2
    {
      id := 0;
      code2 := vm.code2;
      name := vm.name;
      code3 := vm.code3;
      isBillingEnabled := vm.isBillingEnabled;
      isShippingEnabled := vm.isShippingEnabled;
      isCityEnabled := vm.isCityEnabled;
      isZipCodeEnabled := vm.isZipCodeEnabled;
      isDistrictEnabled := vm.isDistrictEnabled;
    }

    /** The setters `update` calls: name, code3 and the five flags take the request's values. */
    method SetFrom(vm: CountryPostVm)
      modifies this
      ensures Matches(vm) && id == old(id) && code2 == old(code2)
    {
      name := vm.name;
      code3 := vm.code3;
      isBillingEnabled := vm.isBillingEnabled;
      isShippingEnabled := vm.isShippingEnabled;
      isCityEnabled := vm.isCityEnabled;
      isZipCodeEnabled := vm.isZipCodeEnabled;
      isDistrictEnabled := vm.isDistrictEnabled;
    }

    /** The fields `update` overwrites hold the request's values. */
    ghost predicate Matches(vm: CountryPostVm)
      reads this
    {
      && name == vm.name
      && code3 == vm.code3
      && isBillingEnabled == vm.isBillingEnabled
      && isShippingEnabled == vm.isShippingEnabled
      && isCityEnabled == vm.isCityEnabled
      && isZipCodeEnabled == vm.isZipCodeEnabled
      && isDistrictEnabled == vm.isDistrictEnabled
    }
  }

  class CountryService {
    var countries: map<int, Country>
    var nextId: int

    /**
     * Each country is stored under its own id, below the next id to be given
     * out, no entity is stored twice, and no two countries share a name.
     */
    ghost predicate Valid()
      reads this, countries.Values
    {
      && (forall k :: k in countries ==> countries[k].id == k && k < nextId)
      && (forall a, b :: a in countries && b in countries && a != b ==>
            countries[a] != countries[b] && countries[a].name != countries[b].name)
    }

    /** `existsByName`. */
    predicate ExistsByName(name: string)
      reads this, countries.Values
    {
      exists k :: k in countries && countries[k].name == name
    }

    /** `existsByNameNotUpdatingCountry`: another country than `id` has the name. */
    predicate ExistsByNameNotUpdatingCountry(name: string, id: int)
      reads this, countries.Values
    {
      exists k :: k in countries && k != id && countries[k].name == name
    }

    constructor ()
      ensures Valid() && countries == map[]
    {
      countries := map[];
      nextId := 1;
    }

    /** `create`: refuse a name already taken, otherwise save the new country. */
    method Create(vm: CountryPostVm) returns (r: Result<Country, LocationError>)
      requires Valid()
      modifies this
      ensures Valid()
      ensures r.Err? <==> old(ExistsByName(vm.name))
      ensures r.Err? ==> r.error == Duplicated(NAME_ALREADY_EXITED, vm.name) && countries == old(countries)
      ensures r.Ok? ==>
        && fresh(r.value) && r.value.id == old(nextId) && old(nextId) !in old(countries)
        && countries == old(countries)[old(nextId) := r.value]
        && r.value.Matches(vm) && r.value.code2 == vm.code2
    {
      if ExistsByName(vm.name) {
        return Err(Duplicated(NAME_ALREADY_EXITED, vm.name));
      }
      var country := new Country.FromPostVm(vm);
      country.id := nextId;
      countries := countries[nextId := country];
      nextId := nextId + 1;
      r := Ok(country);
    }

    /**
     * `update`: refuse a name another country has (checked before the id is
     * looked up), then a missing id; otherwise overwrite the name, code3 and the
     * five enabled flags of that country, and nothing else.
     */
    method Update(vm: CountryPostVm, id: int) returns (r: Result<Country, LocationError>)
      requires Valid()
      modifies if id in countries then {countries[id]} else {}
      ensures Valid()
      ensures r.Err? && r.error.Duplicated? <==> old(ExistsByNameNotUpdatingCountry(vm.name, id))
      ensures r.Err? ==> r.error == if old(ExistsByNameNotUpdatingCountry(vm.name, id))
                                    then Duplicated(NAME_ALREADY_EXITED, vm.name)
                                    else NotFound(COUNTRY_NOT_FOUND, id)
      ensures r.Err? && r.error.NotFound? <==> !old(ExistsByNameNotUpdatingCountry(vm.name, id)) && id !in countries
      ensures r.Err? ==> id in countries ==> unchanged(countries[id])
      ensures r.Ok? ==>
        && id in countries && r.value == countries[id]
        && r.value.Matches(vm) && r.value.id == id && r.value.code2 == old(countries[id].code2)
      ensures forall k :: k in countries && k != id ==> unchanged(countries[k])
    {
      if ExistsByNameNotUpdatingCountry(vm.name, id) {
        return Err(Duplicated(NAME_ALREADY_EXITED, vm.name));
      }
      if id !in countries {
        return Err(NotFound(COUNTRY_NOT_FOUND, id));
      }
      var country := countries[id];
      assert forall k :: k in countries && k != id ==> countries[k].name != vm.name;
      country.SetFrom(vm);
      r := Ok(country);
    }
  }

  /** Renaming a country to the name it already has is allowed. */
  method KeepOwnName(service: CountryService, id: int, vm: CountryPostVm) returns (r: Result<Country, LocationError>)
    requires service.Valid() && id in service.countries && vm.name == service.countries[id].name
    modifies service.countries[id]
    ensures r.Ok? && r.value == service.countries[id] && r.value.Matches(vm)
  {
    r := service.Update(vm, id);
  }
}
