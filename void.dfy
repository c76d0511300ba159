/** `src/void.rs`: the `Void` capability every type has through the blanket
    `impl<T> Void for T`, which tells whether a slot type is the unit type `()`
    and, for `()`, produces its value.

    Dafny cannot compare types, so a type is described by a `TypeInfo`: what
    the Rust compiler knows about it, namely its `TypeId` and the outcome of
    downcasting a boxed `()` to it. */
module Void {
  import opened Wrappers

  datatype TypeId = UnitTypeId | NamedTypeId(name: string)

  /** `unitAsSelf` is `Box::new(()).downcast::<T>()`, read as an `Option`. */
  datatype TypeInfo<T> = TypeInfo(id: TypeId, unitAsSelf: Option<T>)

  /** The downcast of a boxed `()` succeeds exactly when the type is `()`:
      this holds of every type the compiler describes. */
  predicate WellFormed<T>(t: TypeInfo<T>) {
    t.unitAsSelf.Some? <==> t.id == UnitTypeId
  }

  /** `Void::is_void`: `TypeId::of::<Self>() == TypeId::of::<()>()`. */
  predicate IsVoid<T>(t: TypeInfo<T>) {
    t.id == UnitTypeId
  }

  /** `Void::void`: the unit value when `Self` is `()`, and `None` (no panic)
      for every other type. */
  function VoidValue<T>(t: TypeInfo<T>): (r: Option<T>)
    ensures !IsVoid(t) ==> r.None?
    ensures WellFormed(t) ==> (r.Some? <==> IsVoid(t))
  {
    if t.id == UnitTypeId then t.unitAsSelf else None
  }

  /** The description of `()` itself. */
  function UnitInfo(): (t: TypeInfo<()>)
    ensures WellFormed(t) && IsVoid(t)
  {
    TypeInfo(UnitTypeId, Some(()))
  }

  /** The description of any other (named) type. */
  function NamedInfo<T>(name: string): (t: TypeInfo<T>)
    ensures WellFormed(t) && !IsVoid(t)
  {
    TypeInfo(NamedTypeId(name), None)
  }

  lemma VoidOfUnit()
    ensures VoidValue(UnitInfo()) == Some(())
  {
  }
}
