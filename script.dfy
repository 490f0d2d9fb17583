/** The data-preparation steps of the script's `__main__` block (src/learning.py):
    the configured class list, loading, preparing inputs and labels, and the
    `y_train_orig` name that shares the train label array. */
module Script {
  import opened Wrappers
  import opened Dataset
  import opened Input
  import opened Labels

  /** CLASSES as the script configures it: 0 through 10. */
  const ScriptClasses: seq<int> := [0, 1, 2, 3, 4, 5, 6, 7, 8, 9, 10]

  /** With the script's class list the re-indexing loop changes no label, so the
      labels seen through `y_train_orig` still read as the digits. */
  lemma ScriptClassesKeepLabels(ys: seq<int>)
    ensures RelabelAll(ys, ScriptClasses) == ys
    ensures NoEarlyCollision(ScriptClasses) && Distinct(ScriptClasses)
  {
    assert ScriptClasses == seq(11, i requires 0 <= i < 11 => i);
    IdentityClassesKeepLabels(ys, 11);
  }

  /** Lines 110 and 123-127: load and filter both splits, prepare the images, keep a
      second name for the train label array, then re-index and encode both label arrays.
      The label arrays are the fresh copies that boolean indexing returns. An encoding
      error at line 126 stops the script before the test labels are prepared. */
  method PrepareData(rawTrain: Split<Image>, rawTest: Split<Image>, classes: seq<int>)
    returns (xTrain: Channelled<real>, yTrainOrig: array<int>, xTest: Channelled<real>,
             encoded: Result<(seq<seq<int>>, seq<seq<int>>), EncodeError>)
    requires Aligned(rawTrain) && Aligned(rawTest)
    ensures fresh(yTrainOrig)
    ensures xTrain == PrepareInput(FilterSplit(rawTrain, classes).value.images)
    ensures xTest == PrepareInput(FilterSplit(rawTest, classes).value.images)
    ensures yTrainOrig[..] == RelabelAll(Members(rawTrain.labels, classes), classes)
    ensures encoded.Ok? <==> classes != []
    ensures classes == [] ==> encoded == Err(NoLabels)
    ensures encoded.Ok? ==>
      ToCategorical(yTrainOrig[..], |classes|) == Ok(encoded.value.0)
      && ToCategorical(RelabelAll(Members(rawTest.labels, classes), classes), |classes|) == Ok(encoded.value.1)
      && |encoded.value.0| == |xTrain| && |encoded.value.1| == |xTest|
    ensures encoded.Ok? && NoEarlyCollision(classes) ==>
      forall k :: 0 <= k < |encoded.value.0| ==>
        encoded.value.0[k] == OneHot(IndexOf(classes, Members(rawTrain.labels, classes)[k]), |classes|)
    ensures classes == ScriptClasses ==> yTrainOrig[..] == Members(rawTrain.labels, classes)
  {
    var loaded := LoadData(rawTrain, rawTest, classes);
    var train, test := loaded.value.0, loaded.value.1;
    FilterLabelsAreMembers(rawTrain, classes);
    FilterLabelsAreMembers(rawTest, classes);
    FilterKeepsExactlyMembers(rawTrain, classes);
    FilterKeepsExactlyMembers(rawTest, classes);

    xTrain := PrepareInput(train.images);
    xTest := PrepareInput(test.images);

    var trainLabels := new int[|train.labels|](k requires 0 <= k < |train.labels| => train.labels[k]);
    var testLabels := new int[|test.labels|](k requires 0 <= k < |test.labels| => test.labels[k]);
    assert trainLabels[..] == train.labels && testLabels[..] == test.labels;
    yTrainOrig := trainLabels;

    PreparedLabelsEncode(train.labels, classes);
    PreparedLabelsEncode(test.labels, classes);
    if classes == ScriptClasses {
      ScriptClassesKeepLabels(train.labels);
    }
    var encodedTrain := PrepareOutput(trainLabels, classes);
    if encodedTrain.Err? {
      encoded := Err(encodedTrain.error);
      return;
    }
    var encodedTest := PrepareOutput(testLabels, classes);
    encoded := Ok((encodedTrain.value, encodedTest.value));
  }
}
