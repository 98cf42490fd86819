/**
 * The cabin form schemas of app/_schemas/cabinSchemas.ts. All three share
 * one cross-field refinement: the discount must be strictly below the
 * regular price. The per-field shapes they reuse (name, capacity, prices,
 * description, image path, id) live in schema files that are not part of
 * this model; a form here already holds values of the right types, and only
 * the checks this file adds are modelled.
 */
module CabinSchemas {
  import opened Wrappers

  /** A validation issue: the path of the offending field and its message. */
  datatype Issue = Issue(path: seq<string>, message: string)

  /** An uploaded file, of which only the size matters here. */
  datatype ImageFile = ImageFile(size: nat)

  const DISCOUNT_MESSAGE: string := "Discount should be less than regular price"
  const IMAGE_MESSAGE: string := "Image is required"
  /** The message the schema library gives a missing required field. */
  const REQUIRED_MESSAGE: string := "Required"

  /** The issue the shared refinement reports. */
  const DISCOUNT_ISSUE: Issue := Issue(["discount"], DISCOUNT_MESSAGE)

  /** `superValidate`: the issue it adds to the context, if any. */
  function SuperValidate(discount: int, regularPrice: int): (issue: Option<Issue>)
    ensures issue.Some? <==> discount >= regularPrice
    ensures issue.Some? ==> issue.value.path == ["discount"] && issue.value.message == DISCOUNT_MESSAGE
  {
    if discount >= regularPrice then Some(DISCOUNT_ISSUE) else None
  }

  /** The issues a refinement's context holds after `superValidate` ran. */
  function RefinementIssues(discount: int, regularPrice: int): seq<Issue>
  {
    match SuperValidate(discount, regularPrice)
    case Some(issue) => [issue]
    case None => []
  }

  /** The fields of `CreateCabinSchema` that this file constrains. */
  datatype CreateCabinForm = CreateCabinForm(regularPrice: int, discount: int, image: ImageFile)

  /** The fields of `CreateCabinsSchema` (bulk creation, image given as a stored path). */
  datatype CreateCabinsForm = CreateCabinsForm(regularPrice: int, discount: int, image: string)

  /** The fields of `UpdateCabinSchema`: the image may be left out, the cabin id may be missing. */
  datatype UpdateCabinForm = UpdateCabinForm(regularPrice: int, discount: int, image: Option<ImageFile>, cabinId: Option<int>)

  /**
   * `CreateCabinSchema`: an empty image file is reported on `image`; that
   * field refinement does not abort the object, so the discount refinement
   * still runs and its issue follows.
   */
  function CreateCabinIssues(form: CreateCabinForm): (issues: seq<Issue>)
    ensures (Issue(["image"], IMAGE_MESSAGE) in issues) <==> form.image.size == 0
    ensures (DISCOUNT_ISSUE in issues) <==> form.discount >= form.regularPrice
    ensures issues == [] <==> form.image.size > 0 && form.discount < form.regularPrice
    ensures forall i :: i in issues ==> i == Issue(["image"], IMAGE_MESSAGE) || i == DISCOUNT_ISSUE
    ensures |issues| == (if form.image.size == 0 then 1 else 0) + (if form.discount >= form.regularPrice then 1 else 0)
  {
    var imageIssues := if form.image.size > 0 then [] else [Issue(["image"], IMAGE_MESSAGE)];
    imageIssues + RefinementIssues(form.discount, form.regularPrice)
  }

  /** `CreateCabinsSchema`: only the discount refinement is added to the stored-cabin shape. */
  function CreateCabinsIssues(form: CreateCabinsForm): (issues: seq<Issue>)
    ensures issues == [] <==> form.discount < form.regularPrice
    ensures issues != [] ==> issues == [DISCOUNT_ISSUE]
  {
    RefinementIssues(form.discount, form.regularPrice)
  }

  /**
   * `UpdateCabinSchema`: a missing cabin id is a type failure that aborts
   * the object, so the refinement is not reached; any image, or none, is
   * accepted.
   */
  function UpdateCabinIssues(form: UpdateCabinForm): (issues: seq<Issue>)
    ensures form.cabinId.None? ==> issues == [Issue(["cabinId"], REQUIRED_MESSAGE)]
    ensures form.cabinId.Some? ==> (issues == [] <==> form.discount < form.regularPrice)
    ensures form.cabinId.Some? && issues != [] ==> issues == [DISCOUNT_ISSUE]
  {
    match form.cabinId
    case None => [Issue(["cabinId"], REQUIRED_MESSAGE)]
    case Some(_) => RefinementIssues(form.discount, form.regularPrice)
  }

  /** The three schemas agree on the discount rule, whatever else differs between them. */
  lemma SchemasShareDiscountRule(regularPrice: int, discount: int, file: ImageFile,
                                 path: string, image: Option<ImageFile>, cabinId: int)
    requires file.size > 0
    ensures var create := CreateCabinIssues(CreateCabinForm(regularPrice, discount, file));
            var many := CreateCabinsIssues(CreateCabinsForm(regularPrice, discount, path));
            var update := UpdateCabinIssues(UpdateCabinForm(regularPrice, discount, image, Some(cabinId)));
            && create == many == update
            && (create == [DISCOUNT_ISSUE] <==> discount >= regularPrice)
            && (create == [] <==> discount < regularPrice)
  {
  }

  /** A regular price of 100 with a discount of 100 is refused, on `discount`. */
  lemma EqualDiscountRefused()
    ensures CreateCabinsIssues(CreateCabinsForm(100, 100, "cabin-001.jpg")) == [Issue(["discount"], DISCOUNT_MESSAGE)]
  {
  }

}
