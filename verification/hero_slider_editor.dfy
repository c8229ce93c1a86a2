/** The home-page hero slider editor: reordering, removing and uploading images. */
module HeroSliderEditor {
  import opened Wrappers
  import SeqOps

  /** The source's `dir: -1 | 1`. */
  datatype Step = Back | Forward

  function Offset(dir: Step): int {
    if dir == Back then -1 else 1
  }

  datatype EditorState = EditorState(images: seq<string>, busy: bool)

  /** Swap image idx with its neighbour in direction dir, if that neighbour exists. */
  function Move(images: seq<string>, idx: nat, dir: Step): (r: seq<string>)
    requires idx < |images|
    ensures |r| == |images| && multiset(r) == multiset(images)
    ensures var to := idx + Offset(dir);
      if 0 <= to < |images| then
        r[idx] == images[to] && r[to] == images[idx]
        && forall k :: 0 <= k < |images| && k != idx && k != to ==> r[k] == images[k]
      else r == images
  {
    var to := idx + Offset(dir);
    if to < 0 || to >= |images| then images
    else
      SeqOps.SwapPermutes(images, idx, to as nat);
      SeqOps.Swap(images, idx, to as nat)
  }

  /** Moving one way and back again restores the list. */
  lemma MoveForwardThenBack(images: seq<string>, idx: nat)
    requires idx + 1 < |images|
    ensures Move(Move(images, idx, Forward), idx + 1, Back) == images
  {
  }

  /** `images.filter((_, i) => i !== idx)`. */
  function Remove(images: seq<string>, idx: int): (r: seq<string>)
    ensures 0 <= idx < |images| ==> |r| == |images| - 1 && r == images[..idx] + images[idx + 1..]
    ensures !(0 <= idx < |images|) ==> r == images
  {
    SeqOps.RemoveIndex(images, idx)
  }

  /** An upload: a failure leaves the list alone; a success appends the public URL.
      The busy flag is down again either way. */
  function Upload(st: EditorState, upload: Result<string>): (r: EditorState)
    ensures !r.busy
    ensures upload.Err? ==> r.images == st.images
    ensures upload.Ok? ==> r.images == st.images + [upload.value]
  {
    match upload
    case Err(_) => st.(busy := false)
    case Ok(url) => st.(images := st.images + [url], busy := false)
  }

  /** The row "Save" writes: the list under the `hero` key of `home_sections`. */
  datatype SliderUpdate = SliderUpdate(key: string, image_urls: seq<string>)

  function SaveRequest(st: EditorState): (u: SliderUpdate)
    ensures u.key == "hero" && u.image_urls == st.images
  {
    SliderUpdate("hero", st.images)
  }
}
