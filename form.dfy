/** The POST branch of `form_page`: the five parallel lists of the submitted
    material table become a list of material records. Sessions, redirects and
    the `new=1` reset are not modelled. */
module Form {
  import opened Materials

  /** The records stored in the session, or the IndexError that aborts the
      request when a list is shorter than the 통신방식 list. */
  datatype FormOutcome = Stored(materials: seq<Material>) | IndexError

  /** `form_page` on a POST with the lists `getlist` returns for each field. */
  method ZipMaterials(comm: seq<string>, kind: seq<string>, newOld: seq<string>, qty: seq<string>, box: seq<string>)
    returns (out: FormOutcome)
    ensures out.Stored? <==> |kind| >= |comm| && |newOld| >= |comm| && |qty| >= |comm| && |box| >= |comm|
    ensures out.Stored? ==> |out.materials| == |comm|
    ensures out.Stored? ==> forall i :: 0 <= i < |comm| ==>
      out.materials[i] == MaterialOf(comm[i], kind[i], newOld[i], qty[i], box[i])
  {
    var materials: seq<Material> := [];
    var i := 0;
    while i < |comm|
      invariant 0 <= i <= |comm|
      invariant i <= |kind| && i <= |newOld| && i <= |qty| && i <= |box|
      invariant |materials| == i
      invariant forall j :: 0 <= j < i ==> materials[j] == MaterialOf(comm[j], kind[j], newOld[j], qty[j], box[j])
    {
      if i >= |kind| || i >= |newOld| || i >= |qty| || i >= |box| {
        return IndexError;
      }
      materials := materials + [MaterialOf(comm[i], kind[i], newOld[i], qty[i], box[i])];
      i := i + 1;
    }
    return Stored(materials);
  }
}
