/** The vector base class of phantasus: one row or one column of an expression
    matrix, with a name, a fixed element count and a mutable property bag.
    The base class stores no element values; subclasses supply getValue. */
module Vectors {

  /** An error thrown by a vector operation; phantasus's getValue throws a JavaScript Error. */
  datatype Error = Error(message: string)

  /** The error thrown by the base getValue. */
  const NotImplemented: Error := Error("Not implemented")

  /** The outcome of an operation that may throw. */
  datatype Result<T> = Ok(value: T) | Err(error: Error)

  /** The property bag (a phantasus.Map) attached to each vector. Its own
      operations are not part of this model: callers change it by assigning
      its contents `m`, which stands for any write through the map's API. */
  class PropertyMap<V> {
    var m: map<string, V>

    /** A new map holds no properties. */
    constructor ()
      ensures m == map[]
    {
      m := map[];
    }
  }

  /** phantasus.AbstractVector. Nothing in the class reassigns name, n or
      properties after construction, so they are constants here; only the
      contents of the property bag can change. */
  class AbstractVector<T, V> {
    const name: string
    const n: int
    const properties: PropertyMap<V>

    /** Stores the name and size as given (no validation of either) and
        allocates a bag that no other object shares. */
    constructor (name: string, size: int)
      ensures GetName() == name && Size() == size
      ensures fresh(GetProperties()) && GetProperties().m == map[]
    {
      this.name := name;
      n := size;
      properties := new PropertyMap();
    }

    /** The base getValue throws "Not implemented" for every index, whether
        or not it lies in [0, Size()). */
    function GetValue(index: int): (r: Result<T>)
      ensures r.Err? && r.error == NotImplemented && r.error.message == "Not implemented"
    {
      Err(NotImplemented)
    }

    /** The property bag, by reference. */
    function GetProperties(): PropertyMap<V>
    {
      properties
    }

    /** The element count given to the constructor. */
    function Size(): int
    {
      n
    }

    /** The name given to the constructor. */
    function GetName(): string
    {
      name
    }
  }

  /** A caller that sets one property on a vector through getProperties().
      The write reaches the bag the vector hands out; its frame leaves every
      other object, every other bag included, unchanged, and the vector's
      size and name are constants, which no write to a bag can reach. */
  method SetProperty<T, V>(v: AbstractVector<T, V>, key: string, value: V)
    modifies v.GetProperties()
    ensures v.GetProperties().m == old(v.GetProperties().m)[key := value]
  {
    var bag := v.GetProperties();
    bag.m := bag.m[key := value];
  }

  /** A vector constructed while another exists never shares that one's bag. */
  method NewVector<T, V>(existing: AbstractVector<T, V>, name: string, size: int)
    returns (v: AbstractVector<T, V>)
    ensures v != existing && v.GetProperties() != existing.GetProperties()
    ensures v.GetName() == name && v.Size() == size && v.GetProperties().m == map[]
  {
    v := new AbstractVector(name, size);
  }

  /** Two vectors built one after the other: each owns its own bag, so a
      property set on the first is not visible in the second, and neither
      the sizes nor the names are affected. */
  method IndependentBags<T, V>(name1: string, size1: int, name2: string, size2: int, key: string, value: V)
    returns (a: AbstractVector<T, V>, b: AbstractVector<T, V>)
    ensures a.GetProperties() != b.GetProperties()
    ensures a.GetProperties().m == map[key := value] && b.GetProperties().m == map[]
    ensures a.GetName() == name1 && a.Size() == size1
    ensures b.GetName() == name2 && b.Size() == size2
  {
    a := new AbstractVector(name1, size1);
    b := new AbstractVector(name2, size2);
    SetProperty(a, key, value);
  }
}
