/** What every plain JavaScript object (`{}`) inherits from `Object.prototype`:
    servor.js keeps its options and its media-type map in such objects, so a
    lookup by a name below finds something even when no own key was set. */
module JsObject {
  /** The property names of `Object.prototype`. */
  const Inherited: set<string> := {
    "constructor", "hasOwnProperty", "isPrototypeOf", "propertyIsEnumerable",
    "toString", "toLocaleString", "valueOf", "__proto__",
    "__defineGetter__", "__defineSetter__", "__lookupGetter__", "__lookupSetter__"}

  /** The accessor through which assigning a non-object changes nothing. */
  const Proto: string := "__proto__"

  /** The text an inherited member turns into when it is written as a header
      value: the prototype itself prints as `[object Object]`, `constructor` is
      the native `Object` function, and every other member is the native
      function of its own name. */
  function MemberText(name: string): (t: string)
    requires name in Inherited
    ensures name == Proto <==> t == "[object Object]"
    ensures name != Proto ==> |t| > 29 && t[..9] == "function " && t[|t| - 20..] == "() { [native code] }"
  {
    if name == Proto then "[object Object]"
    else if name == "constructor" then "function Object() { [native code] }"
    else "function " + name + "() { [native code] }"
  }
}
