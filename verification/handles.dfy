/** Resource handles, resource states and setup descriptors shared by the
    resource pools, the locator registry and the resource container. */
module Handles {

  /** The resource kinds of the graphics module. ConstantBlock exists as a tag
      but has no pool; InvalidType marks the invalid Id. */
  datatype ResType = Mesh | Texture | Shader | ProgramBundle | ConstantBlock | DrawState | InvalidType
  {
    /** True for the five kinds the container keeps a pool for. */
    predicate Pooled() {
      this in {Mesh, Texture, Shader, ProgramBundle, DrawState}
    }

    /** True for the kinds that support two-phase (asynchronous) creation. */
    predicate Async() {
      this == Mesh || this == Texture
    }
  }

  /** The per-slot resource state. InvalidState is the status a query
      returns for an Id that no longer exists. */
  datatype ResState = Initial | Setup | Pending | Valid | Failed | InvalidState

  /** What a factory may return: it either built the object or it did not. */
  type SetupResult = s: ResState | s == Valid || s == Failed witness Valid

  /** A resource handle: kind, slot index and a unique stamp that makes a
      recycled slot's old handles stale. */
  datatype Id = Id(kind: ResType, slot: nat, stamp: nat)
  {
    predicate IsValid() {
      kind != InvalidType
    }
  }

  const InvalidId: Id := Id(InvalidType, 0, 0)

  /** Resource locators are compared as plain strings. */
  type Locator = string

  /** Labels are generation counters; a label pushed later is larger. */
  type Label = nat

  /** A setup descriptor. `meshes` is only read for draw states (the meshes
      the draw state references); `options` stands for every other
      configuration value, which only the factory looks at. */
  datatype Descriptor = Descriptor(kind: ResType, locator: Locator, meshes: seq<Id>, options: nat)

  /** The optional raw bytes handed to a factory. */
  datatype Payload = NoData | Data(bytes: seq<bv8>)

  /** A per-kind resource factory, seen only through its result. */
  type Factory = (Descriptor, Payload) -> SetupResult

  /** One observable call into a factory. */
  datatype FactoryCall =
    | SetupResource(id: Id, setup: Descriptor, data: Payload)
    | DestroyResource(id: Id)
}
