/** The public value types of the layout library that the core works with. */
module LayoutTypes {
  import opened Geometry

  /** The three kinds of element a section can hold. */
  datatype ItemKind = Header | Cell | Footer

  const AllKinds: set<ItemKind> := {Header, Cell, Footer}

  /** An element's address inside one state of the layout model. */
  datatype ItemPath = ItemPath(item: nat, section: nat)

  datatype ChatItemAlignment = Leading | Trailing | Center | FullWidth

  /** What a delegate answers when asked for an element's size. */
  datatype ItemSize = Auto | Estimated(size: Size) | Exact(size: Size)

  /** The two copies of the layout model kept during a batch update. */
  datatype ModelState = BeforeUpdate | AfterUpdate

  /** One value for each `ModelState`. */
  datatype PerState<T> = PerState(before: T, after: T) {

    function At(state: ModelState): T {
      match state
      case BeforeUpdate => before
      case AfterUpdate => after
    }

    function With(state: ModelState, v: T): (r: PerState<T>)
      ensures r.At(state) == v
      ensures forall other: ModelState :: other != state ==> r.At(other) == At(other)
    {
      match state
      case BeforeUpdate => PerState(v, after)
      case AfterUpdate => PerState(before, v)
    }
  }
}
