/** The content items a replies view reads: the root item and its replies. */
module Contents {
  import opened Wrappers

  /** A JavaScript identifier value as compared with `===`: absent, null, or a string. */
  datatype Ident = Undefined | Null | Str(s: string)

  /** JavaScript truthiness of an identifier: only a non-empty string is truthy. */
  predicate Truthy(v: Ident) {
    v.Str? && v.s != ""
  }

  datatype Author = Author(id: Ident)

  /**
   * A content item. `handle` stands for the object's reference identity:
   * two items are the same object exactly when their handles agree.
   * `id` is absent for an item the server has not yet persisted.
   */
  datatype Content = Content(
    handle: nat,
    id: Ident,
    author: Option<Author>,
    createdAt: int)

  /** Reference identity (`===`) of two content items. */
  predicate Identical(a: Content, b: Content) {
    a.handle == b.handle
  }
}
