# Top-five label ranker of the image recogniser

The recogniser runs an image through a pretrained network and gets back one
probability per class. The ranker turns that vector into the answer:

1. it pairs the i-th label of the vocabulary with the i-th probability,
   walking the probabilities in order and stopping at the end of the shorter
   of the two inputs;
2. it sorts the pairs in place, through the `Labels` adapter (`Len`, `Less`,
   `Swap`), so that probabilities run from high to low;
3. it returns the first five pairs, re-slicing with `[:5]`, which panics when
   there are fewer than five.

`recognition.dfy` holds one module, `Recognition`:

- `Label` is the source's `Label` struct, a value. Its field `Label` is renamed
  `name` (`label` is a Dafny keyword), and `Probability` is `probability`.
  Probabilities are float32 in the program, but they are only ever compared,
  so they are modelled as `real`.
- The slice the adapter sorts is an `array<Label>`. `Len` and `Less` are
  functions that read it. `Swap` is a method that writes two cells. `Sort`
  reorders the array using only `Len`, `Less` and `Swap`.
- `GetTopFiveLabels` returns an `Outcome`: `Ok` with the five pairs, or
  `Panic(SliceBoundsOutOfRange(5, c))` where the program panics, with `c` the
  capacity that `append` gave the slice of pairs (`AppendCapacity`). It also
  returns, as a ghost, the sorted slice the five are cut from.
- `Zip`, `SortedDescending`, `IsRanking` and `IsTopK` are the specification.
  The lemmas prove that a ranking's prefix is a top-k selection. They prove
  that every returned pair comes from one index of the inputs. They also prove
  that any two rankings of the same pairs agree on the probability at every
  position. Because `GetTopFiveLabels` returns the first five of such a
  ranking, `TopFiveDeterminedUpToTies` applies to any two of its results on
  the same inputs. So the result is fixed except for the order of ties.

## Model

| member | source | states |
|---|---|---|
| `Recognition.Zip` | recognition/image_recognition.go:133-139 | the pairs built before sorting number min(len(labels), len(probabilities)), and pair i is exactly (labels[i], probabilities[i]) |
| `Recognition.PairLabels` | recognition/image_recognition.go:133-139 | the append loop, which stops at the first index past the end of the labels, builds exactly `Zip` of the inputs, so the count is the minimum of the two lengths and pair i holds labels[i] and probabilities[i] |
| `Recognition.Len` | recognition/image_recognition.go:20 | the adapter's length is the number of pairs in the slice |
| `Recognition.Less` | recognition/image_recognition.go:22 | no pair is Less than itself (irreflexive) |
| `Recognition.LessIsStrictWeakOrder` | recognition/image_recognition.go:22 | Less is irreflexive, asymmetric and transitive, and ties (incomparability) are transitive, which is the strict weak order a sort needs |
| `Recognition.Swap` | recognition/image_recognition.go:21 | positions i and j trade their pairs, every other position is unchanged, and the multiset of pairs is preserved |
| `Recognition.Sort` | recognition/image_recognition.go:141 | sorting through Len/Less/Swap leaves the pairs non-increasing by probability and is a permutation of the input; the order of ties is left open |
| `Recognition.GetTopFiveLabels` | recognition/image_recognition.go:132-143 | the call succeeds exactly when at least five pairs exist, and otherwise panics with a slice-bounds error naming 5 and the capacity append gave the slice; the zipped pairs are sorted into a descending permutation, and on success the result is its first five, which are a top-5 selection: five of the pairs, in descending order, and no pair left out has a higher probability than a pair returned |
| `Recognition.AppendCapacity` | recognition/image_recognition.go:133-142 | a slice of fewer than five pairs grown by append has a capacity of at least its length and below five, so `[:5]` panics; the capacity equals the length except for three pairs, whose capacity is four |
| `Recognition.RankingPrefixIsTopK` | recognition/image_recognition.go:141-142 | the first k pairs of a descending permutation are k of the pairs, in descending order, and none of the pairs left out has a higher probability than any pair kept |
| `Recognition.TopPairsComeFromInputs` | recognition/image_recognition.go:138-142 | any pairs drawn from the zipped inputs, such as the five returned, each pair a label with the probability of one and the same index i, for i below the shorter input's length |
| `Recognition.RankingsAgreeOnProbabilities` | recognition/image_recognition.go:141 | two descending permutations of the same pairs have the same length and the same probability at every position, so an unstable sort can only reorder ties |
| `Recognition.TopFiveDeterminedUpToTies` | recognition/image_recognition.go:141-142 | any two rankings of the same five or more pairs put the same probabilities in the five returned positions |
| `Recognition.ThreeLabelPairs` | recognition/image_recognition.go:134-139 | labels cat, dog, car with probabilities 0.1, 0.9, 0.05 pair up as (cat,0.1), (dog,0.9), (car,0.05) |
| `Recognition.ThreeLabelRanking` | recognition/image_recognition.go:141 | those three pairs rank as (dog,0.9), (cat,0.1), (car,0.05) |

## Left out

- `loadImageClassificationModel` (recognition/image_recognition.go:24-49): it reads the graph and the label file and imports the graph through the TensorFlow binding. That is file I/O and a foreign library.
- `createTensorFromImage` and `getNormalizedGraph` (recognition/image_recognition.go:51-102): JPEG decoding, casting, resizing and subtracting 117 are TensorFlow operations on float32 tensors. These are foreign calls and floating-point numerics.
- `ClassifyImage` (recognition/image_recognition.go:104-130): its sessions run opaque inference. The model starts where that function hands the label list and row 0 of the output to the ranker.
- `main.go`: it only reads a file, calls the classifier, panics on error and logs the result.
- Probabilities are a total order (`real`). float32 NaN, for which `>` is not a strict weak order, is not modelled, nor is the difference between +0 and -0, which compare equal.
- Recognition.Sort: the standard library's `sort.Sort` is a hybrid sort that is not stable. The model's body is that library's insertion sort, which swaps a pair left while it is Less than its neighbour. Its contract promises only what any correct sort gives: descending order and a permutation. It promises nothing about the order of ties.
- Recognition.AppendCapacity: Go bounds `[:5]` by the slice's capacity. The model gives the capacity only below five pairs (0, 1, 2, 4, 4), as the runtime's growth for the 24-byte Label struct on a 64-bit platform makes it. With five or more pairs the capacity is at least the length, so the re-slice succeeds whatever the exact capacity is.
- Recognition.GetTopFiveLabels: in Go, the returned five pairs share a backing array with the sorted slice. The model returns a fresh sequence, so this aliasing is not modelled.
