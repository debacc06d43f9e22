/** Definitions shared by the models. */
module Wrappers {
  // The optional value used throughout the models.
  datatype Option<+T> = None | Some(value: T)

  // What every plain object inherits: looking one of these names up in an object finds it
  // even when the object holds no such entry itself.
  const INHERITED: set<string> := {
    "constructor", "hasOwnProperty", "isPrototypeOf", "propertyIsEnumerable", "toLocaleString", "toString", "valueOf",
    "__defineGetter__", "__defineSetter__", "__lookupGetter__", "__lookupSetter__", "__proto__" }

  lemma SubsetSize<T>(x: set<T>, y: set<T>)
    requires x <= y
    ensures |x| <= |y|
  {
    assert y == x + (y - x);
  }
}
