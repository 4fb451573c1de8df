/** Attribute values and items of a Nanoc site build, as the preprocess helpers see them. */
module Items {

  datatype Option<T> = None | Some(value: T)

  /**
   * A value held by an item attribute or by the site configuration. Attribute
   * keys are Ruby symbols; they are written here by their names.
   */
  datatype Value = Nil | Bool(b: bool) | Int(i: int) | Str(s: string)

  type Attributes = map<string, Value>

  /**
   * One content unit of the build: raw content, attributes and identifier,
   * in the order `Nanoc3::Item.new` takes them.
   */
  datatype Item = Item(content: Value, attributes: Attributes, identifier: Value)

  /** Ruby truthiness: every value except nil and false. */
  predicate Truthy(v: Value) {
    !v.Nil? && v != Bool(false)
  }

  /** `Hash#[]`: the value stored under `key`, or nil when the key is absent. */
  function Lookup(m: Attributes, key: string): Value {
    if key in m then m[key] else Nil
  }
}
