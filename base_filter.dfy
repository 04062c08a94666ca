/** BaseFilter: the input class and the filter name ("skel", "dandist" or
    "maudist") select input and output voxel types; the BaseFilter
    constructor then copies the image into an ITK image, runs the filter
    and copies its output into a new Matlab array of the output class. */
module BaseFilter {
  import opened MexErrors
  import opened VoxelTypes
  import ItkImFilter

  /** The filters BaseFilter dispatches to. */
  datatype Kind = Skel | DanDist | MauDist

  function Name(k: Kind): string {
    match k
    case Skel => "skel"
    case DanDist => "dandist"
    case MauDist => "maudist"
  }

  const NotImplementedError := "Filter type not implemented"
  const UnrecognisedOutputError := "Assertion fail: Unrecognised output voxel type"

  /** The filter a name selects; any other name is not implemented. */
  function ParseKind(name: string): (r: Result<Kind>)
    ensures r.Ok? <==> name in {"skel", "dandist", "maudist"}
    ensures r.Ok? ==> Name(r.value) == name
    ensures r.Err? ==> r.msg == NotImplementedError
  {
    if name == "skel" then Ok(Skel)
    else if name == "dandist" then Ok(DanDist)
    else if name == "maudist" then Ok(MauDist)
    else Err(NotImplementedError)
  }

  /** The output voxel type: skel keeps the input type, maudist gives
      double, dandist goes by nbit. */
  function OutputVoxelType(k: Kind, input: VoxelType, nbit: nat): VoxelType {
    match k
    case Skel => input
    case DanDist => DanielssonOutput(nbit)
    case MauDist => Dbl
  }

  /** The itk_imfilter filter of the same name. */
  function ItkFilter(k: Kind): ItkImFilter.Filter {
    match k
    case Skel => ItkImFilter.Thinning
    case DanDist => ItkImFilter.Danielsson
    case MauDist => ItkImFilter.Maurer
  }

  /** Both wrappers pick the same output voxel type wherever itk_imfilter
      accepts the input, and BaseFilter also accepts logical input for
      skel and maudist, which itk_imfilter rejects. */
  lemma SameOutputAsItkImFilter(k: Kind, input: VoxelType, nbit: nat)
    ensures ItkImFilter.ParseFilterName(Name(k)) == Ok(ItkFilter(k))
    ensures ItkImFilter.OutputVoxelType(ItkFilter(k), input, nbit).Ok? ==>
              ItkImFilter.OutputVoxelType(ItkFilter(k), input, nbit).value == OutputVoxelType(k, input, nbit)
    ensures ItkImFilter.OutputVoxelType(ItkFilter(k), input, nbit).Err? <==> k != DanDist && input == Logical
  {
    ItkImFilter.NamesSelectTheirFilter(ItkFilter(k));
  }

  /** The Matlab class of the output array: defined for logical (bool),
      uint8, uint16, single (float) and double, an assertion error for any
      other voxel type. */
  function OutputClass(t: VoxelType): (r: Result<ClassId>)
    ensures r.Ok? <==> t in {Logical, U8, U16, Float, Dbl}
    ensures r.Ok? ==> InputVoxelType(r.value) == Ok(t)
    ensures r.Err? ==> r.msg == UnrecognisedOutputError
  {
    match t
    case Logical => Ok(LogicalClass)
    case U8 => Ok(Uint8Class)
    case U16 => Ok(Uint16Class)
    case Float => Ok(SingleClass)
    case Dbl => Ok(DoubleClass)
    case _ => Err(UnrecognisedOutputError)
  }

  /** The distance filters always have an output class; skel has one only
      for logical, uint8, uint16, single and double input, so skel on a
      signed integer image fails after filtering. */
  lemma OutputClassDefined(k: Kind, input: VoxelType, nbit: nat)
    ensures k != Skel ==> OutputClass(OutputVoxelType(k, input, nbit)).Ok?
    ensures k == Skel ==>
              (OutputClass(OutputVoxelType(k, input, nbit)).Ok? <==> input !in {I8, I16, I32, I64})
  {
  }

  /** A filter instantiated for an input and an output voxel type. */
  datatype Selection = Selection(kind: Kind, input: VoxelType, output: VoxelType)

  /** The parse chain: the input class is checked first, then the filter
      name. */
  function Dispatch(cls: ClassId, name: string, nbit: nat): (r: Result<Selection>)
    ensures r.Ok? <==> Supported(cls) && name in {"skel", "dandist", "maudist"}
    ensures !Supported(cls) ==> r == Err(InputVoxelType(cls).msg)
    ensures Supported(cls) && r.Err? ==> r.msg == NotImplementedError
    ensures r.Ok? ==>
              && ClassOf(r.value.input) == cls && Name(r.value.kind) == name
              && r.value.output == OutputVoxelType(r.value.kind, r.value.input, nbit)
  {
    match InputVoxelType(cls)
    case Err(e) => Err(e)
    case Ok(input) =>
      match ParseKind(name)
      case Err(e) => Err(e)
      case Ok(k) => Ok(Selection(k, input, OutputVoxelType(k, input, nbit)))
  }

  /** A Matlab array the filter returns: dimensions, class and elements. */
  datatype Output = Output(dims: seq<nat>, cls: ClassId, data: array<real>)

  /** The input loop: every voxel, in order, into a new ITK image buffer. */
  method CopyIntoItkImage(im: seq<real>) returns (image: array<real>)
    ensures fresh(image) && image[..] == im
  {
    image := new real[|im|];
    for i := 0 to |im|
      invariant image[..i] == im[..i]
    {
      image[i] := im[i];
    }
  }

  /** The output loop: numEl elements of the filter output, in iterator
      order, into a new output buffer. */
  method CopyOutput(filtered: seq<real>, numEl: nat) returns (out: array<real>)
    requires numEl <= |filtered|
    ensures fresh(out) && out[..] == filtered[..numEl]
  {
    out := new real[numEl];
    for i := 0 to numEl
      invariant out[..i] == filtered[..i]
    {
      out[i] := filtered[i];
    }
  }

  /** The BaseFilter constructor. An image with no rows or no columns gives
      a 0x0 double array and nothing else happens. Otherwise the output has
      the input's dimensions, the class of the output voxel type, and as
      elements the ITK filter's output for the input image. `itkFilter`
      stands for the ITK filter selected by `sel`. */
  method Construct(sel: Selection, dims: seq<nat>, im: seq<real>, itkFilter: seq<real> -> seq<real>)
      returns (r: Result<Output>)
    requires |dims| >= 2
    requires forall x: seq<real> :: |itkFilter(x)| == |x|
    ensures dims[0] == 0 || dims[1] == 0 ==>
              && r.Ok? && r.value.dims == [0, 0] && r.value.cls == DoubleClass
              && fresh(r.value.data) && r.value.data.Length == 0
    ensures dims[0] != 0 && dims[1] != 0 ==>
              && (r.Ok? <==> OutputClass(sel.output).Ok?)
              && (r.Err? ==> r.msg == UnrecognisedOutputError)
              && (r.Ok? ==>
                    && r.value.dims == dims && r.value.cls == OutputClass(sel.output).value
                    && fresh(r.value.data) && r.value.data[..] == itkFilter(im))
  {
    if dims[0] == 0 || dims[1] == 0 {
      var empty := new real[0];
      return Ok(Output([0, 0], DoubleClass, empty));
    }
    var image := CopyIntoItkImage(im);
    var filtered := itkFilter(image[..]);
    var cls := OutputClass(sel.output);
    if cls.Err? {
      return Err(cls.msg);
    }
    var out := CopyOutput(filtered, |im|);
    assert filtered[..|im|] == filtered;
    r := Ok(Output(dims, cls.value, out));
  }

  /** Dispatch and construct: the argument errors come first, even for an
      empty image. */
  method Run(cls: ClassId, name: string, nbit: nat, dims: seq<nat>, im: seq<real>,
             itkFilter: seq<real> -> seq<real>) returns (r: Result<Output>)
    requires |dims| >= 2
    requires forall x: seq<real> :: |itkFilter(x)| == |x|
    ensures Dispatch(cls, name, nbit).Err? ==> r == Err(Dispatch(cls, name, nbit).msg)
    ensures Dispatch(cls, name, nbit).Ok? && (dims[0] == 0 || dims[1] == 0) ==>
              && r.Ok? && r.value.dims == [0, 0] && r.value.cls == DoubleClass
              && fresh(r.value.data) && r.value.data.Length == 0
    ensures Dispatch(cls, name, nbit).Ok? && dims[0] != 0 && dims[1] != 0 ==>
              var sel := Dispatch(cls, name, nbit).value;
              && (r.Ok? <==> OutputClass(sel.output).Ok?)
              && (r.Err? ==> r.msg == UnrecognisedOutputError)
              && (r.Ok? ==>
                    && r.value.dims == dims && r.value.cls == OutputClass(sel.output).value
                    && fresh(r.value.data) && r.value.data[..] == itkFilter(im))
  {
    var sel := Dispatch(cls, name, nbit);
    if sel.Err? {
      return Err(sel.msg);
    }
    r := Construct(sel.value, dims, im, itkFilter);
  }
}
