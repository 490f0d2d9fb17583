# Data preparation of the MNIST training script, in Dafny

This project models the data-preparation core of `src/learning.py`, a teaching script that
trains a convolutional digit classifier on MNIST. The core has three parts:

- **Class filtering** (`load_data`). A membership mask `np.isin(y, CLASSES)` is built from the
  labels. That one mask then indexes both the image array and the label array, for the train
  and the test split.
- **Input preparation** (`prepare_input`). The batch of shape (N, H, W) is reshaped to
  (N, H, W, 1), then divided by 255.
- **Label preparation** (`prepare_output`). A loop over the positions of `CLASSES` rewrites the
  label array in place: at position i, every entry equal to `CLASSES[i]` becomes i. The result is then one-hot encoded to width `len(CLASSES)`
  by `to_categorical`.

The script's `__main__` block fixes `CLASSES = [0, ..., 10]`. It also keeps a second name,
`y_train_orig`, for the train label array before that array is re-indexed in place.

Modules:

- `Wrappers` (wrappers.dfy) holds the `Result` type used for the errors the program raises.
- `Dataset` (dataset.dfy) models `load_data`. Boolean-mask indexing is `Select`, and the
  positions the mask keeps are `Kept`. numpy's refusal of a mask of the wrong length becomes
  `Err(MaskLengthMismatch)`.
- `Input` (input.dfy) models `prepare_input`. It covers the reshape, its inverse and the
  row-major order of elements. Division by 255 is stated over mathematical reals.
- `Labels` (labels.dfy) models `prepare_output`. The loop is an imperative method over an
  `array<int>`, proved equal to the function `RelabelAll`. `After(v, classes, n)` is the value
  an entry holds after n passes. The lemmas state exactly when re-indexing yields each class's
  position in the list. They also show what happens when a class value collides with an index
  assigned earlier: with `[1, 0]`, both classes end as 1.
- `Script` (script.dfy) models the `__main__` preparation steps. `PrepareData` returns the
  array `yTrainOrig`, which is the very array that `prepare_output` re-indexed.

Behaviour worth noting:

- An empty class list empties both splits at lines 32-35 (`EmptyClassesEmptySplit`). The script
  then stops at line 54: with zero classes, `to_categorical` sizes the encoding by the largest
  label, and an empty label array has none (`ToCategorical`, `PrepareData`).
- The re-indexing loop leaves a label outside the class list unchanged (`NonMemberUnchanged`).
  Only `to_categorical` can then fail, when that value is not a column index.
- Re-indexing rewrites the label array in place, so `y_train_orig` sees the rewritten labels.
- The script's class list contains 10, which is not an MNIST digit. So the one-hot width is 11,
  and column 10 is never hot.

## Model

| member | source | states |
|---|---|---|
| Dataset.Kept | src/learning.py:35 | the positions a boolean mask selects: each selected position exactly once, in ascending order |
| Dataset.Select | src/learning.py:35 | boolean-mask indexing: element j of the result is the input element at the j-th selected position |
| Dataset.FilterSplit | src/learning.py:32-35 | filtering one split succeeds exactly when images and labels have equal length (otherwise numpy refuses the mask) |
| Dataset.LoadData | src/learning.py:23-35 | both splits are filtered with the same class list; the result is an error exactly when either split is misaligned |
| Dataset.FilterKeepsExactlyMembers | src/learning.py:32-35 | after filtering, images and labels have equal length, and kept sample j is original sample Kept[j] in both arrays, with Kept strictly increasing; every kept label is a class, and every sample whose label is a class is kept |
| Dataset.FilterDropsNoMember | src/learning.py:32-35 | a sample whose label is a class appears in the filtered split together with its own image |
| Dataset.FilterLabelsAreMembers | src/learning.py:32-35 | the filtered labels equal the list comprehension `[y for y in ys if y in classes]`, in order |
| Dataset.EmptyClassesEmptySplit | src/learning.py:32-35 | with an empty class list, both filtered arrays are empty and no error is raised |
| Input.AddChannelAxisShape | src/learning.py:42 | the reshape turns shape (n, h, w) into (n, h, w, 1) |
| Input.AddThenDrop | src/learning.py:42 | dropping the added axis gives the original batch back |
| Input.DropThenAdd | src/learning.py:42 | on arrays whose trailing axis has length 1, adding the axis back inverts the drop |
| Input.AddChannelAxisKeepsOrder | src/learning.py:42 | the reshape keeps every element in row-major order, so element count and order are unchanged |
| Input.PrepareInput | src/learning.py:38-44 | the prepared batch keeps the (n, h, w) layout with one channel; every value lies in [0, 1] and times 255 is the source pixel |
| Labels.UnmatchedKeepsValue | src/learning.py:51-52 | an entry that equals no class value at any pass of the loop keeps its value |
| Labels.NonMemberUnchanged | src/learning.py:51-52 | a label that is not in the class list leaves the loop unchanged |
| Labels.MemberBecomesIndex | src/learning.py:51-52 | a label in the class list ends as a valid class index in [0, len(classes)), even when collisions occur |
| Labels.Settled | src/learning.py:51-52 | an entry set to index x keeps x exactly as long as no later class value equals x; once it leaves x it holds a later index |
| Labels.RelabelledExactly | src/learning.py:51-52 | a class ends at its position p in the list if and only if no later class value equals p |
| Labels.NoCollisionCorrect | src/learning.py:51-52 | when no class value equals an earlier index, every class ends as its position in the list |
| Labels.RelabelCorrectIff | src/learning.py:51-52 | for a duplicate-free class list, all classes end at their own positions if and only if no class value equals an earlier index |
| Labels.CollisionRewritesAgain | src/learning.py:51-52 | for a duplicate-free list with classes[j] == i and i < j, the class at position i becomes i at pass i, is rewritten to j at pass j, and ends at an index of at least j, not at i |
| Labels.SwappedClassesCollide | src/learning.py:51-52 | with the class list [1, 0], both classes end as 1 |
| Labels.IdentityClassesKeepLabels | src/learning.py:51-52 | with the class list 0, 1, ..., n-1 the loop changes no label |
| Labels.AssignWhereEqual | src/learning.py:52 | `y[y == c] = i`: every entry equal to c becomes i, and every other entry is unchanged |
| Labels.Relabel | src/learning.py:51-52 | the in-place loop leaves the array equal to RelabelAll of its old contents |
| Labels.OneHotRoundTrip | src/learning.py:54 | a one-hot row sums to 1, and its hot column decodes to the encoded value |
| Labels.ToCategorical | src/learning.py:54 | with a non-zero width, encoding succeeds exactly when every value is in [0, width); with width 0 the width is one more than the largest label, and an empty label array is the error `NoLabels`; on success each row is the one-hot row of its label: a 1 at the label's column and 0 in every other column |
| Labels.PrepareOutput | src/learning.py:46-55 | the label array is re-indexed in place, and the result is the encoding of the re-indexed array |
| Labels.PreparedLabelsEncode | src/learning.py:51-54 | when every label is a class, encoding the re-indexed labels succeeds exactly when the class list is not empty; with no early collision, each row is the one-hot row of the label's position in the class list |
| Script.ScriptClassesKeepLabels | src/learning.py:99 | the script's class list 0..10 has no collision and no duplicate, and re-indexing with it leaves every label unchanged |
| Script.PrepareData | src/learning.py:123-127 | `y_train_orig` is the re-indexed train label array itself; encoding fails (`NoLabels`) exactly when the class list is empty, and otherwise both label sets are one-hot encoded and pair one-to-one with the images; with no early collision each train row is the one-hot row of the label's class position; with the script's class list, `y_train_orig` still holds the filtered digits |

## Left out

- The dataset download (`mnist.load_data()`, line 29) is left out. Its four arrays are parameters of `LoadData` and `PrepareData`.
- Input.PrepareInput: division by 255 is exact real division, not IEEE floating point.
- Input.AddChannelAxis: the reshape is modelled for a batch of 2-D images (a 3-D array), the only shape the script passes.
- Labels.ToCategorical: output rows hold integers 0 and 1, not float32. A negative value is reported as an error; numpy's negative-index wrap-around inside `to_categorical` is not modelled, because that library code is not part of this model. The width-0 fallback (one more than the largest label) follows that library's behaviour; when every label is negative the library raises, because a negative width fails the allocation and a width of 0 fails the index assignment; the model reports `LabelOutOfRange`.
- Labels.Relabel: labels are unbounded integers, not the provider's uint8. Indices assigned by the loop fit in uint8 for any class list shorter than 256.
- Script.PrepareData: it requires aligned raw splits, as the dataset provider delivers them. `LoadData` models the misaligned case.
- `build_model` (lines 57-71) is left out: it is an unfinished stub that seeds TensorFlow and returns an empty network.
- `train_model` (lines 73-94) is left out: fitting, early stopping and seeding live in the learning framework, whose code is not part of this model.
- Model compilation and saving (lines 147-149, 182) are left out as foreign calls.
- The plotting and previews in `vis` are left out as UI.
- The `input()` prompts and `print` walkthrough are left out as interactive console flow.
