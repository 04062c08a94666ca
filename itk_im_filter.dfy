/** itk_imfilter: B = ITK_IMFILTER(TYPE, A, ...). The filter name, the
    class of A and (for the Danielsson filter) the bits of the largest
    distance select a filter and its input and output voxel types; the
    selected filter object then runs its stages in a fixed order. */
module ItkImFilter {
  import opened MexErrors
  import opened VoxelTypes
  import MexDanielsson

  /** The filters itk_imfilter supports. */
  datatype Filter = Thinning | Danielsson | Maurer | Dilate | Erode

  function ShortName(f: Filter): string {
    match f
    case Thinning => "skel"
    case Danielsson => "dandist"
    case Maurer => "maudist"
    case Dilate => "bwdilate"
    case Erode => "bwerode"
  }

  function LongName(f: Filter): string {
    match f
    case Thinning => "BinaryThinningImageFilter3D"
    case Danielsson => "DanielssonDistanceMapImageFilter"
    case Maurer => "SignedMaurerDistanceMapImageFilter"
    case Dilate => "BinaryDilateImageFilter"
    case Erode => "BinaryErodeImageFilter"
  }

  predicate Names(name: string, f: Filter) {
    name == ShortName(f) || name == LongName(f)
  }

  const NotEnoughInputsError := "Not enough input arguments"
  const InvalidFilterStringError := "Invalid FILTER string"
  const NotImplementedError := "Filter type not implemented"
  const IncompatibleInputError := "Input type incompatible with this filter"
  const NullFilterError := "Assertion fail: filter is NULL in runFilter()"

  /** The filter whose short or long name the string is, tried in the
      order thinning, Danielsson, Maurer, dilate, erode. */
  function ParseFilterName(name: string): (r: Result<Filter>)
    ensures r.Ok? ==> Names(name, r.value)
    ensures r.Err? ==> r.msg == NotImplementedError && forall f: Filter :: !Names(name, f)
  {
    if Names(name, Thinning) then Ok(Thinning)
    else if Names(name, Danielsson) then Ok(Danielsson)
    else if Names(name, Maurer) then Ok(Maurer)
    else if Names(name, Dilate) then Ok(Dilate)
    else if Names(name, Erode) then Ok(Erode)
    else
      NoFilterNamed(name);
      Err(NotImplementedError)
  }

  /** A string that is none of the five filters' names names no filter. */
  lemma NoFilterNamed(name: string)
    requires !Names(name, Thinning) && !Names(name, Danielsson) && !Names(name, Maurer)
    requires !Names(name, Dilate) && !Names(name, Erode)
    ensures forall f: Filter :: !Names(name, f)
  {
    forall f: Filter
      ensures !Names(name, f)
    {
      match f
      case Thinning =>
      case Danielsson =>
      case Maurer =>
      case Dilate =>
      case Erode =>
    }
  }

  /** No string names two filters, so each name selects its own filter. */
  lemma NamesSelectTheirFilter(f: Filter)
    ensures ParseFilterName(ShortName(f)) == Ok(f)
    ensures ParseFilterName(LongName(f)) == Ok(f)
  {
    ShortNameSelects(f);
    LongNameSelects(f);
  }

  lemma ShortNameSelects(f: Filter)
    ensures ParseFilterName(ShortName(f)) == Ok(f)
  {
    match f
    case Thinning =>
    case Danielsson =>
    case Maurer =>
    case Dilate =>
    case Erode =>
  }

  lemma LongNameSelects(f: Filter)
    ensures ParseFilterName(LongName(f)) == Ok(f)
  {
    match f
    case Thinning =>
    case Danielsson =>
    case Maurer =>
    case Dilate =>
    case Erode =>
  }

  /** The output voxel type for a filter and input voxel type: thinning,
      dilation and erosion keep the input type, Maurer gives double, and
      Danielsson goes by nbit. Thinning and Maurer reject logical input. */
  function OutputVoxelType(f: Filter, input: VoxelType, nbit: nat): (r: Result<VoxelType>)
    ensures r.Err? <==> f in {Thinning, Maurer} && input == Logical
    ensures r.Err? ==> r.msg == IncompatibleInputError
    ensures r.Ok? && f in {Thinning, Dilate, Erode} ==> r.value == input
    ensures r.Ok? && f == Maurer ==> r.value == Dbl
    ensures r.Ok? && f == Danielsson ==> r.value == DanielssonOutput(nbit)
  {
    if f in {Thinning, Maurer} && input == Logical then Err(IncompatibleInputError)
    else
      match f
      case Thinning => Ok(input)
      case Danielsson => Ok(DanielssonOutput(nbit))
      case Maurer => Ok(Dbl)
      case Dilate => Ok(input)
      case Erode => Ok(input)
  }

  /** A filter instantiated for an input and an output voxel type. */
  datatype Selection = Selection(filter: Filter, input: VoxelType, output: VoxelType)

  /** mexFunction's checks and the parse chain, in the order the source
      makes them: argument count, filter string, filter name, input class,
      input-filter compatibility. `filterArg` is None when the first
      argument is not a string. */
  function Dispatch(nargin: nat, filterArg: Option<string>, cls: ClassId, nbit: nat): (r: Result<Selection>)
    ensures nargin < 2 ==> r == Err(NotEnoughInputsError)
    ensures nargin >= 2 && filterArg.None? ==> r == Err(InvalidFilterStringError)
    ensures nargin >= 2 && filterArg.Some? && ParseFilterName(filterArg.value).Err? ==>
              r == Err(NotImplementedError)
    ensures (&& nargin >= 2 && filterArg.Some? && ParseFilterName(filterArg.value).Ok?
             && !Supported(cls))
            ==> r == Err(if cls == UnknownClass then UnknownTypeError else InvalidTypeError)
    ensures (&& nargin >= 2 && filterArg.Some? && ParseFilterName(filterArg.value).Ok?
             && Supported(cls)
             && ParseFilterName(filterArg.value).value in {Thinning, Maurer} && cls == LogicalClass)
            ==> r == Err(IncompatibleInputError)
    ensures r.Ok? <==>
              && nargin >= 2 && filterArg.Some?
              && ParseFilterName(filterArg.value).Ok?
              && Supported(cls)
              && !(ParseFilterName(filterArg.value).value in {Thinning, Maurer} && cls == LogicalClass)
    ensures r.Ok? ==>
              && Names(filterArg.value, r.value.filter)
              && ClassOf(r.value.input) == cls
              && OutputVoxelType(r.value.filter, r.value.input, nbit) == Ok(r.value.output)
  {
    if nargin < 2 then Err(NotEnoughInputsError)
    else if filterArg.None? then Err(InvalidFilterStringError)
    else match ParseFilterName(filterArg.value)
      case Err(e) => Err(e)
      case Ok(f) =>
        match InputVoxelType(cls)
        case Err(e) => Err(e)
        case Ok(input) =>
          match OutputVoxelType(f, input, nbit)
          case Err(e) => Err(e)
          case Ok(output) => Ok(Selection(f, input, output))
  }

  /** An unknown filter name is reported even when the input class is also
      unsupported: the name is checked first. */
  lemma NameCheckedBeforeClass(nargin: nat, name: string, cls: ClassId, nbit: nat)
    requires nargin >= 2 && ParseFilterName(name).Err?
    ensures Dispatch(nargin, Some(name), cls, nbit) == Err(NotImplementedError)
  {
  }

  /** The stages runFilter calls on a filter object. */
  datatype Stage =
    | CheckNumberOfOutputs | GraftInput | BasicSetup | AdvancedSetup
    | MummifyOutput | RunItkFilter | ExportOtherOutputs | Delete

  /** The stages after a successful output-count check. */
  function RunStages(): seq<Stage> {
    [CheckNumberOfOutputs, GraftInput, BasicSetup, AdvancedSetup,
     MummifyOutput, RunItkFilter, ExportOtherOutputs, Delete]
  }

  /** Every stage is called once, the output count is checked first, the
      ITK filter runs after its setup, and its other outputs are exported
      after it runs. */
  lemma RunStagesOrder()
    ensures |RunStages()| == 8 && RunStages()[0] == CheckNumberOfOutputs
    ensures forall i, j :: 0 <= i < j < |RunStages()| ==> RunStages()[i] != RunStages()[j]
    ensures forall i :: 0 <= i < |RunStages()| && RunStages()[i] == RunItkFilter ==>
              AdvancedSetup in RunStages()[..i] && ExportOtherOutputs in RunStages()[i + 1..]
  {
    var st := RunStages();
    forall i | 0 <= i < |st| && st[i] == RunItkFilter
      ensures AdvancedSetup in st[..i] && ExportOtherOutputs in st[i + 1..]
    {
      assert i == 5;
      assert st[..i][3] == AdvancedSetup;
      assert st[i + 1..][0] == ExportOtherOutputs;
    }
  }

  /** A filter object created by the filter selector: its kind and the
      stages called on it so far. */
  class MexFilter {
    const kind: Filter
    var stages: seq<Stage>

    constructor (kind: Filter)
      ensures this.kind == kind && stages == []
    {
      this.kind := kind;
      stages := [];
    }

    /** The filter's output-count check: Danielsson's own; for the other
        filters the base class's check, whose outcome is `baseCheck`. */
    method CheckOutputs(nargout: nat, baseCheck: Option<string>) returns (err: Option<string>)
      modifies this
      ensures err == (if kind == Danielsson then MexDanielsson.CheckNumberOfOutputs(nargout) else baseCheck)
      ensures stages == old(stages) + [CheckNumberOfOutputs]
    {
      stages := stages + [CheckNumberOfOutputs];
      if kind == Danielsson {
        err := MexDanielsson.CheckNumberOfOutputs(nargout);
      } else {
        err := baseCheck;
      }
    }

    /** One of the stages after the check; what it does to the images is
        not part of this model. */
    method Call(s: Stage)
      modifies this
      ensures stages == old(stages) + [s]
    {
      stages := stages + [s];
    }
  }

  /** runFilter: stop on a null filter, else check the number of outputs
      and, when that passes, run the remaining stages in order. */
  method RunFilter(filter: MexFilter?, nargout: nat, baseCheck: Option<string>) returns (err: Option<string>)
    modifies filter
    ensures filter == null ==> err == Some(NullFilterError)
    ensures filter != null ==>
              var check := if filter.kind == Danielsson then MexDanielsson.CheckNumberOfOutputs(nargout) else baseCheck;
              && err == check
              && filter.stages == old(filter.stages) + (if check.Some? then RunStages()[..1] else RunStages())
  {
    if filter == null {
      return Some(NullFilterError);
    }
    err := filter.CheckOutputs(nargout, baseCheck);
    if err.Some? {
      return;
    }
    filter.Call(GraftInput);
    filter.Call(BasicSetup);
    filter.Call(AdvancedSetup);
    filter.Call(MummifyOutput);
    filter.Call(RunItkFilter);
    filter.Call(ExportOtherOutputs);
    filter.Call(Delete);
  }
}
