/**
 * The transfer representation of a dog (testtask/DTOs/DogDto.cs): its four
 * public properties, the data-annotation rules model binding checks before
 * a DTO reaches the service, and the JSON key each property travels under.
 */
module DogDtos {
  import opened Wrappers
  import opened Runtime

  /** The public properties of DogDto, in declaration order. */
  datatype Property = Name | Color | TailLength | Weight

  /** The C# identifier of a property, which reflection looks names up against. */
  function PropertyName(p: Property): string {
    match p
    case Name => "Name"
    case Color => "Color"
    case TailLength => "TailLength"
    case Weight => "Weight"
  }

  lemma PropertyNameInjective(p: Property, q: Property)
    requires PropertyName(p) == PropertyName(q)
    ensures p == q
  {
  }

  /**
   * `typeof(DogDto).GetProperty(name)`: a public property whose identifier is
   * exactly `name` (ordinal, case-sensitive), or null.
   */
  function GetProperty(name: string): (r: Option<Property>)
    ensures r.Some? ==> PropertyName(r.value) == name
    ensures r.None? ==> forall p: Property :: PropertyName(p) != name
  {
    if name == "Name" then Some(Name)
    else if name == "Color" then Some(Color)
    else if name == "TailLength" then Some(TailLength)
    else if name == "Weight" then Some(Weight)
    else None
  }

  /** The camel-case naming policy applied to an identifier that starts with one capital. */
  function CamelCase(s: string): (r: string)
    ensures |r| == |s| && (s != [] ==> r[1..] == s[1..])
  {
    if s == [] then [] else [ToLower(s[0])] + s[1..]
  }

  /**
   * The JSON key of a property on the wire: `tail_length` by its
   * JsonPropertyName attribute, the camel-cased identifier otherwise (the
   * naming policy that AddControllers installs).
   */
  function WireName(p: Property): string {
    if p == TailLength then "tail_length" else CamelCase(PropertyName(p))
  }

  lemma {:induction false} WireNamesDistinct(p: Property, q: Property)
    requires p != q
    ensures WireName(p) != WireName(q)
  {
    match p
    case Name => assert WireName(p)[0] == 'n';
    case Color => assert WireName(p)[0] == 'c';
    case TailLength => assert WireName(p)[0] == 't' && WireName(p)[4] == '_';
    case Weight => assert WireName(p)[0] == 'w';
  }

  datatype DogDto = DogDto(name: string, color: string, tailLength: int32, weight: int32)

  /** [Required] on a string: present, and not empty or white space only. */
  predicate Required(s: string) {
    !IsNullOrWhiteSpace(s)
  }

  /** [Range(1, int.MaxValue)] on an int. */
  predicate InRange(v: int32) {
    1 <= v <= IntMaxValue
  }

  /** The DTO passes every data annotation on DogDto. */
  predicate Valid(dto: DogDto): (b: bool)
    ensures b ==> exists i :: 0 <= i < |dto.name| && !IsWhiteSpace(dto.name[i])
    ensures b ==> exists i :: 0 <= i < |dto.color| && !IsWhiteSpace(dto.color[i])
    ensures b <==> Required(dto.name) && Required(dto.color) && dto.tailLength > 0 && dto.weight > 0
  {
    Required(dto.name) && Required(dto.color) && InRange(dto.tailLength) && InRange(dto.weight)
  }

  const NameRequiredMessage := "The Name field is required."
  const ColorRequiredMessage := "The Color field is required."
  const TailLengthMessage := "Tail length must be greater than 0"
  const WeightMessage := "Weight must be greater than 0"

  /**
   * The error messages model validation records for a DTO, one per failing
   * annotation, in property order.
   */
  function ValidationErrors(dto: DogDto): (r: seq<string>)
    ensures r == [] <==> Valid(dto)
    ensures NameRequiredMessage in r <==> !Required(dto.name)
    ensures ColorRequiredMessage in r <==> !Required(dto.color)
    ensures TailLengthMessage in r <==> dto.tailLength < 1
    ensures WeightMessage in r <==> dto.weight < 1
    ensures |r| <= 4
  {
    (if Required(dto.name) then [] else [NameRequiredMessage])
    + (if Required(dto.color) then [] else [ColorRequiredMessage])
    + (if InRange(dto.tailLength) then [] else [TailLengthMessage])
    + (if InRange(dto.weight) then [] else [WeightMessage])
  }
}
