/**
 * The back-office brand endpoints of the product service: read, create,
 * update and delete a brand in the brand table. The table is a map from id to
 * the stored `Brand` entities, and a counter gives the id of the next brand
 * saved.
 */
module Brands {
  import opened Common
  import opened Text

  datatype ErrorCode = BRAND_NOT_FOUND | MAKE_SURE_BRAND_DONT_CONTAINS_ANY_PRODUCT

  datatype BrandError =
    | NotFound(code: ErrorCode, id: int)   // `NotFoundException`, answered with 404
    | BadRequest(code: ErrorCode)          // `BadRequestException`, answered with 400

  /** The request body of create and update. */
  datatype BrandPostVm = BrandPostVm(name: string, slug: string)

  /** The brand as the endpoints answer it. */
  datatype BrandVm = BrandVm(id: nat, name: string, slug: string)

  /** The stored brand entity, with the ids of the products that carry it. */
  class Brand {
    var id: nat
    var name: string
    var slug: string
    var products: seq<nat>

    /** `BrandPostVm.toModel()`: a brand not yet saved, without products. */
    constructor FromPostVm(vm: BrandPostVm)
      ensures id == 0 && name == vm.name && slug == vm.slug && products == []
    {
      id := 0;
      name := vm.name;
      slug := vm.slug;
      products := [];
    }

    /** `BrandVm.fromModel`. */
    function View(): (vm: BrandVm)
      reads this
      ensures vm.id == id && vm.name == name && vm.slug == slug
    {
      BrandVm(id, name, slug)
    }
  }

  /** The `Location` header of a created brand: the request's origin with the path `/brands/{id}`. */
  function BrandLocation(origin: string, id: nat): (location: string)
    ensures location == origin + "/brands/" + NatToString(id)
  {
    origin + "/brands/" + NatToString(id)
  }

  /** Two brands get two different locations. */
  lemma {:induction false} BrandLocationInjective(origin: string, id1: nat, id2: nat)
    requires BrandLocation(origin, id1) == BrandLocation(origin, id2)
    ensures id1 == id2
  {
    var prefix := origin + "/brands/";
    assert BrandLocation(origin, id1)[|prefix|..] == NatToString(id1);
    assert BrandLocation(origin, id2)[|prefix|..] == NatToString(id2);
    NatToStringInjective(id1, id2);
  }

  class BrandController {
    var brands: map<int, Brand>
    var nextId: nat

    /** Each brand is stored under its own id, below the next id, and no entity is stored twice. */
    ghost predicate Valid()
      reads this, brands.Values
    {
      && (forall k :: k in brands ==> brands[k].id == k && k < nextId)
      && (forall a, b :: a in brands && b in brands && a != b ==> brands[a] != brands[b])
    }

    constructor ()
      ensures Valid() && brands == map[]
    {
      brands := map[];
      nextId := 1;
    }

    /** `getBrand`: the view of the brand with that id, or `NotFoundException`. */
    method GetBrand(id: int) returns (r: Result<BrandVm, BrandError>)
      ensures r.Err? <==> id !in brands
      ensures r.Err? ==> r.error == NotFound(BRAND_NOT_FOUND, id)
      ensures r.Ok? ==> r.value == brands[id].View()
    {
      if id !in brands {
        return Err(NotFound(BRAND_NOT_FOUND, id));
      }
      var brand := brands[id];
      r := Ok(brand.View());
    }

    /** `createBrand`: save the brand built from the request and answer 201 with its location and view. */
    method CreateBrand(vm: BrandPostVm, origin: string) returns (location: string, body: BrandVm)
      requires Valid()
      modifies this
      ensures Valid()
      ensures old(nextId) !in old(brands)
      ensures old(nextId) in brands && fresh(brands[old(nextId)])
      ensures brands == old(brands)[old(nextId) := brands[old(nextId)]]
      ensures body == BrandVm(old(nextId), vm.name, vm.slug)
      ensures brands[body.id].View() == body && brands[body.id].products == []
      ensures location == BrandLocation(origin, body.id)
    {
      var brand := new Brand.FromPostVm(vm);
      brand.id := nextId;
      brands := brands[nextId := brand];
      nextId := nextId + 1;
      location := BrandLocation(origin, brand.id);
      body := brand.View();
    }

    /** `updateBrand`: set the slug and the name of the brand with that id, and nothing else. */
    method UpdateBrand(id: int, vm: BrandPostVm) returns (r: Result<(), BrandError>)
      requires Valid()
      modifies if id in brands then {brands[id]} else {}
      ensures Valid()
      ensures r.Err? <==> id !in brands
      ensures r.Err? ==> r.error == NotFound(BRAND_NOT_FOUND, id)
      ensures r.Ok? ==>
        && brands[id].slug == vm.slug && brands[id].name == vm.name
        && brands[id].id == id && brands[id].products == old(brands[id].products)
      ensures forall k :: k in brands && k != id ==> unchanged(brands[k])
    {
      if id !in brands {
        return Err(NotFound(BRAND_NOT_FOUND, id));
      }
      var brand := brands[id];
      brand.slug := vm.slug;
      brand.name := vm.name;
      r := Ok(());
    }

    /** `deleteBrand`: `NotFoundException` for an unknown id, `BadRequestException` while the brand has products. */
    method DeleteBrand(id: int) returns (r: Result<(), BrandError>)
      requires Valid()
      modifies this
      ensures Valid()
      ensures r.Err? <==> id !in old(brands) || old(brands[id].products) != []
      ensures id !in old(brands) ==> r == Err(NotFound(BRAND_NOT_FOUND, id))
      ensures id in old(brands) && old(brands[id].products) != [] ==>
        r == Err(BadRequest(MAKE_SURE_BRAND_DONT_CONTAINS_ANY_PRODUCT))
      ensures r.Err? ==> brands == old(brands)
      ensures r.Ok? ==> brands == old(brands) - {id}
      ensures nextId == old(nextId)
    {
      if id !in brands {
        return Err(NotFound(BRAND_NOT_FOUND, id));
      }
      var brand := brands[id];
      if brand.products != [] {
        return Err(BadRequest(MAKE_SURE_BRAND_DONT_CONTAINS_ANY_PRODUCT));
      }
      brands := brands - {id};
      r := Ok(());
    }
  }

  /** A brand created and then read back answers the view the creation returned. */
  method CreateThenGet(controller: BrandController, vm: BrandPostVm, origin: string)
      returns (created: BrandVm, read: Result<BrandVm, BrandError>)
    requires controller.Valid()
    modifies controller
    ensures read == Ok(created) && created.name == vm.name && created.slug == vm.slug
  {
    var location;
    location, created := controller.CreateBrand(vm, origin);
    read := controller.GetBrand(created.id);
  }
}
