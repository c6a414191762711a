/**
 * The per-request tenant holder (billing-backend `App\Support\Tenancy`):
 * one mutable slot that the tenant-resolution middleware fills and the rest
 * of the request reads.
 */
module Support {
  import opened Text

  /** A row of the `tenants` table, as far as the holder and the middleware use it. */
  datatype Tenant = Tenant(id: int, name: string, slug: string)

  class Tenancy {
    /** The tenant of the current request, if one was resolved. */
    var current: Option<Tenant>

    /** A fresh holder knows no tenant. */
    constructor ()
      ensures current == None
    {
      current := None;
    }

    /** `set`: overwrite the slot; the previous tenant is forgotten. */
    method Set(t: Option<Tenant>)
      modifies this
      ensures current == t
    {
      current := t;
    }

    /** `id`: the current tenant's id, or null when there is none. */
    method Id() returns (id: Option<int>)
      ensures id.Some? <==> current.Some?
      ensures current.Some? ==> id.value == current.value.id
    {
      id := if current.Some? then Some(current.value.id) else None;
    }

    /** `tenant`: exactly what was last set. */
    method CurrentTenant() returns (t: Option<Tenant>)
      ensures t == current
    {
      t := current;
    }
  }

  /** A client of the holder: what `set` stores is what `tenant` and `id` read back, whatever was there before. */
  method SetThenRead(h: Tenancy, t: Option<Tenant>) returns (read: Option<Tenant>, id: Option<int>)
    modifies h
    ensures read == t
    ensures t.None? ==> id.None?
    ensures t.Some? ==> id == Some(t.value.id)
  {
    h.Set(t);
    read := h.CurrentTenant();
    id := h.Id();
  }
}
