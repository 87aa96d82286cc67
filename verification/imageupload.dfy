/** The image picker and step bar of the create-event page,
    frontend/src/pages/CreateEvent.jsx: which chosen files are accepted,
    and the file and preview lists that `removeImage` and
    `clearAllImages` keep side by side. */
module ImageUpload {
  import Seqs

  /** A chosen file: its name, MIME type and size in bytes. */
  datatype File = File(name: string, mimeType: string, size: nat)

  /** A preview: the file and its name (the data URL it shows is left out). */
  datatype Preview = Preview(file: File, name: string)

  datatype Images = Images(files: seq<File>, previews: seq<Preview>)

  const NoImages: Images := Images([], [])

  const MaxSize: nat := 5 * 1024 * 1024

  const ValidTypes: seq<string> := ["image/jpeg", "image/jpg", "image/png", "image/gif"]

  /** A JPEG, PNG or GIF of at most 5 MiB. */
  predicate Accepted(f: File) {
    f.mimeType in ValidTypes && f.size <= MaxSize
  }

  /** The two lists describe the same files in the same order. */
  predicate Aligned(st: Images) {
    |st.files| == |st.previews|
    && forall i :: 0 <= i < |st.files| ==> st.previews[i] == Preview(st.files[i], st.files[i].name)
  }

  function PreviewsOf(files: seq<File>): (r: seq<Preview>)
    ensures |r| == |files| && forall i :: 0 <= i < |files| ==> r[i] == Preview(files[i], files[i].name)
  {
    seq(|files|, i requires 0 <= i < |files| => Preview(files[i], files[i].name))
  }

  /** `handleImageChange`: the accepted files, in the order chosen, go to
      the end of the files and of the previews; a rejected file is only
      reported. */
  function AddImages(st: Images, chosen: seq<File>): (r: Images)
    ensures Aligned(st) ==> Aligned(r)
    ensures |r.files| >= |st.files| && r.files[..|st.files|] == st.files
    ensures forall f :: f in r.files[|st.files|..] <==> f in chosen && Accepted(f)
    ensures r.files[|st.files|..] == Seqs.Filter(chosen, Accepted)
  {
    var valid := Seqs.Filter(chosen, Accepted);
    assert (st.files + valid)[..|st.files|] == st.files;
    assert (st.files + valid)[|st.files|..] == valid;
    AppendAligned(st, valid);
    Images(st.files + valid, st.previews + PreviewsOf(valid))
  }

  lemma AppendAligned(st: Images, more: seq<File>)
    ensures Aligned(st) ==> Aligned(Images(st.files + more, st.previews + PreviewsOf(more)))
  {
    if Aligned(st) {
      var files := st.files + more;
      var previews := st.previews + PreviewsOf(more);
      forall i | 0 <= i < |files|
        ensures previews[i] == Preview(files[i], files[i].name)
      {
        if i >= |st.files| {
          assert previews[i] == PreviewsOf(more)[i - |st.files|];
          assert files[i] == more[i - |st.files|];
        }
      }
    }
  }

  /** The files `handleImageChange` reports instead of adding. */
  function Rejected(chosen: seq<File>): (r: seq<File>)
    ensures forall f :: f in r <==> f in chosen && !Accepted(f)
  {
    Seqs.Filter(chosen, (f: File) => !Accepted(f))
  }

  /** Every chosen file is either added or reported, never both. */
  lemma EveryFileAccounted(st: Images, chosen: seq<File>, f: File)
    requires f in chosen
    ensures (f in AddImages(st, chosen).files[|st.files|..]) != (f in Rejected(chosen))
  {
  }

  /** `s.filter((_, i) => i !== index)`. */
  function RemoveAt<T>(s: seq<T>, index: int): (r: seq<T>)
    ensures 0 <= index < |s| ==> |r| == |s| - 1
    ensures 0 <= index < |s| ==> forall i :: 0 <= i < |r| ==> r[i] == (if i < index then s[i] else s[i + 1])
    ensures !(0 <= index < |s|) ==> r == s
  {
    if 0 <= index < |s| then s[..index] + s[index + 1..] else s
  }

  /** `removeImage`: the same position leaves both lists, so they stay
      side by side; an index outside the lists changes nothing. */
  function RemoveImage(st: Images, index: int): (r: Images)
    ensures Aligned(st) ==> Aligned(r)
    ensures Aligned(st) && 0 <= index < |st.files| ==>
      |r.files| + 1 == |st.files| && multiset(r.files) + multiset{st.files[index]} == multiset(st.files)
    ensures !(0 <= index < |st.files|) && Aligned(st) ==> r == st
  {
    assert 0 <= index < |st.files| ==>
      st.files == st.files[..index] + [st.files[index]] + st.files[index + 1..];
    Images(RemoveAt(st.files, index), RemoveAt(st.previews, index))
  }

  /** `clearAllImages`. */
  function ClearAllImages(st: Images): (r: Images)
    ensures r.files == [] && r.previews == [] && Aligned(r)
  {
    NoImages
  }

  /** Adding one accepted file and removing it at its position restores
      the lists. */
  lemma AddThenRemoveLast(st: Images, f: File)
    requires Aligned(st) && Accepted(f)
    ensures RemoveImage(AddImages(st, [f]), |st.files|) == st
  {
    var added := AddImages(st, [f]);
    assert Seqs.Filter([f], Accepted) == [f] by {
      assert [f][1..] == [];
    }
    assert added.files[..|st.files|] == st.files;
    assert added.previews[..|st.previews|] == st.previews;
    assert added.files[|st.files| + 1..] == [] && added.previews[|st.files| + 1..] == [];
  }

  const StepCount: int := 4

  /** The page's own `nextStep` and `prevStep`: one step forward below the
      last, one back above the first. */
  function NextStep(step: int): (r: int)
    ensures 1 <= step <= StepCount ==> 1 <= r <= StepCount
    ensures r == (if step < StepCount then step + 1 else step)
  {
    if step < StepCount then step + 1 else step
  }

  function PrevStep(step: int): (r: int)
    ensures 1 <= step <= StepCount ==> 1 <= r <= StepCount
    ensures r == (if step > 1 then step - 1 else step)
  {
    if step > 1 then step - 1 else step
  }

  /** From any step in range, enough presses of "next" reach the last step
      and stay there. */
  lemma {:induction false} NextReachesLast(step: int, n: nat)
    requires 1 <= step <= StepCount && n >= StepCount - step
    ensures Iterate(step, n) == StepCount
    decreases n
  {
    if n > 0 {
      NextReachesLast(NextStep(step), n - 1);
    }
  }

  function Iterate(step: int, n: nat): int
    decreases n
  {
    if n == 0 then step else Iterate(NextStep(step), n - 1)
  }
}
