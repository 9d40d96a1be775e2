/** data/NamedContainer: a name and a list of items; addItem appends. */
module NamedContainers {
  import opened Animations

  datatype NamedContainer<T> = NamedContainer(name: string, items: seq<T>)

  /** A module of an FNIS package: the animations of one list file. */
  type AnimModule = NamedContainer<Animation>

  /** A package: the modules found in one top-level directory. */
  type Package = NamedContainer<AnimModule>

  /** addItem: the item goes last; the name and the earlier items are kept. */
  function AddItem<T>(c: NamedContainer<T>, x: T): (r: NamedContainer<T>)
    ensures r.name == c.name && r.items == c.items + [x]
  {
    c.(items := c.items + [x])
  }
}
