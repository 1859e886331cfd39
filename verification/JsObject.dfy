/**
 * What a JavaScript object literal `{}` inherits: the members of
 * `Object.prototype` (section 20.1.3 and annex B.2.2 of ECMAScript 2024).
 * Reading one of these names off a record that has no own property of that
 * name yields a function or, for `__proto__`, the prototype object itself;
 * both are truthy.
 */
module JsObject {

  const PrototypeMembers: set<string> := {
    "constructor", "hasOwnProperty", "isPrototypeOf", "propertyIsEnumerable",
    "toLocaleString", "toString", "valueOf", "__proto__",
    "__defineGetter__", "__defineSetter__", "__lookupGetter__", "__lookupSetter__"
  }

  /** `name` reads as something truthy off a record that lacks an own property `name`. */
  predicate Inherited(name: string) {
    name in PrototypeMembers
  }
}
