/** The stored record (testtask/Models/Dog.cs): the DTO's four fields plus the store-assigned Id. */
module Models {
  import opened Runtime
  import opened DogDtos

  datatype Dog = Dog(id: int, name: string, color: string, tailLength: int32, weight: int32)

  /** The projection the listing returns for a record: every field but Id. */
  function ToDto(d: Dog): (r: DogDto)
    ensures r.name == d.name && r.color == d.color
    ensures r.tailLength == d.tailLength && r.weight == d.weight
  {
    DogDto(d.name, d.color, d.tailLength, d.weight)
  }

  /** `Select(d => new DogDto { ... })`: one DTO per record, in order. */
  function ToDtos(dogs: seq<Dog>): (r: seq<DogDto>)
    ensures |r| == |dogs|
    ensures forall k :: 0 <= k < |dogs| ==> r[k] == ToDto(dogs[k])
  {
    seq(|dogs|, k requires 0 <= k < |dogs| => ToDto(dogs[k]))
  }

  /** The record a DTO becomes when it is inserted with identity `id`. */
  function FromDto(dto: DogDto, id: int): (d: Dog)
    ensures ToDto(d) == dto && d.id == id
  {
    Dog(id, dto.name, dto.color, dto.tailLength, dto.weight)
  }
}
