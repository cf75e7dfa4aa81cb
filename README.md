# STScI image-classification pipeline, modelled in Dafny

This project models the HST (Hubble) image-classification pipeline in Dafny. The pipeline is a chain of AWS Lambda handlers driven by a Step Functions state machine:

- an arrival gate parses a raw FITS object key and starts an execution for valid keys;
- a duplicate guard asks the upload-history table whether the image id was seen before;
- one of two classifier stages (AutoML or SageMaker) extracts the primary header's metadata. It then selects or merges the science planes, clamps them to the given percentiles, flips them and reduces the classifier response to a predicted class;
- a relocation stage moves the staged image into the folder of its predicted class, and a copy-only variant copies the raw object there;
- a ledger writer stores the classification record and marks the id as uploaded;
- an error logger records a failed execution.

Next to the pipeline sit two tools. One script splits a folder of class folders into train, validation and test sets. Three scrapers group the cells of HTML tables into rows.

Each handler is a Dafny module. Where the handler changes state, it is a method over a class. The object store is `Storage.Bucket`, whose `objects` map goes from key to content. The three DynamoDB tables are `Ledger.Database`, holding a `Tables` value and a ghost journal of successful puts. The local file system is `DatasetSplit.FileSystem`. A pandas DataFrame is `TableRows.DataFrame`. Each method is proved against a function of its inputs and prior state, and the properties the code promises are lemmas about those functions. Python exceptions become `Err` values of the `Wrappers.Failure` datatype. A missing dictionary key is `KeyError`, a failed unpacking `ValueError`, a pandas row that numpy cannot fit to the columns `ValueError`, and a numpy percentile or minimum of a plane without pixels `ZeroSizeArray`.

Shared modules:

- `Text` holds the Python string operations used: `split`, `join`, `strip`, `replace`, `upper`, `title` and `str` of a natural number.
- `Seqs` holds Python slicing with negative and out-of-range bounds, and `int()` truncation.
- `Events` holds the JSON event passed between stages.
- `Aggregate` holds the tie-accumulating arg-max that both classifiers share.
- `Normalize` holds the image steps both classifiers share.
- `TableRows` holds the header cleaning, row grouping, marker removal and table dictionary the three scrapers share.
- `Pipeline` composes the ledger writer with the duplicate guard. It uses only the two handlers' contracts and assumes no state-machine transition.

Where the code and its documentation disagree, the model follows the code:

- The key is split on every '.', so a key is unpacked only when it has exactly one '.'. A directory name with a dot makes the arrival fail.
- A key such as `x/y/z.fits` has the image id `z` and, having no '_', the subgroup "". It is rejected with the subgroup message, not with a key-format error.
- The 0.0 start value of the running best means a first score of exactly 0.0 is appended to the empty name. The predicted class is then ", A".
- The proportions of the split script are only checked to sum to 1.0. A negative proportion passes that check and makes the slices overlap (`DatasetSplit.NegativeProportionOverlap`).

## Model

| member | source | states |
|---|---|---|
| Text.Split | step-function/lambda-scripts/start_state_machine/lambda_function.py:43 | `split` on one character gives one more piece than there are separators, and no piece contains the separator |
| Text.SplitJoin | step-function/lambda-scripts/start_state_machine/lambda_function.py:43 | joining the pieces of a split with the separator gives back the text |
| Text.CountZero | step-function/lambda-scripts/start_state_machine/lambda_function.py:43 | the separator count is zero exactly when the separator does not occur |
| Text.LastSegmentIsSuffix | step-function/lambda-scripts/start_state_machine/lambda_function.py:44 | `split('/')[-1]` is a '/'-free suffix of the text, preceded by '/' unless it is the whole text |
| Text.LastSegmentAfter | step-function/lambda-scripts/start_state_machine/lambda_function.py:44 | the text after the last '/' is `split('/')[-1]` |
| Text.Strip | webscraping/scrape-and-plot.py:37 | `strip()` is the slice of the text from the end of its leading whitespace, everything outside it is whitespace, and it neither starts nor ends with whitespace |
| Text.StripChars | step-function/lambda-scripts/classify_image/sagemaker/lambda_function.py:37 | every character of the stripped text occurs in the text |
| Text.StripNoSpace | step-function/lambda-scripts/classify_image/sagemaker/lambda_function.py:37 | text without whitespace is its own strip |
| Text.SplitNoSpace | step-function/lambda-scripts/classify_image/sagemaker/lambda_function.py:37 | the pieces of whitespace-free text are whitespace-free |
| Text.Replace | webscraping/scrape-and-plot.py:114 | `replace(a, b)` keeps the length, puts `b` wherever `a` was, leaves no `a` when `a != b`, and keeps every other character in place |
| Text.Upper | step-function/lambda-scripts/log_to_dynamodb/lambda_function.py:27-29 | `upper()` keeps the length, maps each lower-case ASCII letter to the capital 32 code points below it, leaves no lower-case ASCII letter, keeps letters letters and keeps every other character |
| Text.UpperIdempotent | step-function/lambda-scripts/log_to_dynamodb/lambda_function.py:27-29 | upper-casing twice gives what upper-casing once gives |
| Text.TitleFrom | step-function/lambda-scripts/start_state_machine/lambda_function.py:13-14 | `title()` upper-cases a letter that starts a word, lower-cases a letter after a letter, and keeps every other character |
| Text.NatToString | step-function/lambda-scripts/start_state_machine/lambda_function.py:69 | `str(n)` is a non-empty string of decimal digits |
| Text.NatToStringValue | step-function/lambda-scripts/start_state_machine/lambda_function.py:69 | those digits read back as `n`, with no leading '0' except for 0 |
| Seqs.SliceBound | train-validation-test-split.py:35-39 | a slice bound is clamped into [0, n], with a negative bound counted from the end; a bound past the end is n and one below -n is 0 |
| Seqs.Slice | train-validation-test-split.py:35-39 | `s[i:j]` is the list between the two normalised bounds, and empty when they cross; so it is `s[i..j]` for bounds inside the list, never longer than the list, and made of its elements |
| Seqs.SliceFrom | step-function/lambda-scripts/start_state_machine/lambda_function.py:51 | `s[i:]` is `s[i..]` for `i` inside the list and empty past its end |
| Seqs.Trunc | train-validation-test-split.py:34-37 | `int(x)` truncates toward zero: the largest integer not above a non-negative `x`, the smallest not below a negative one |
| Seqs.FlattenAppend | webscraping/scrape-sharplesscatalog-and-plot.py:44 | the rows of two tables concatenated are the rows of each, one after the other |
| Storage.Bucket.Upload | step-function/lambda-scripts/classify_image/automl/lambda_function.py:106 | the key then holds the content and nothing else changes |
| Storage.Bucket.Copy | step-function/lambda-scripts/copy_and_delete_image/lambda_function.py:21-24 | a copy succeeds exactly when the source exists, and then only the destination key changes, taking the source's content |
| Storage.Bucket.CopyFrom | step-function/lambda-scripts/copy_image_to_folder/lambda_function.py:21-24 | a copy from another bucket succeeds exactly when the source key is there, and then only the destination key changes, taking the source's content |
| Storage.Bucket.Delete | step-function/lambda-scripts/copy_and_delete_image/lambda_function.py:27 | the key is gone and nothing else changes, whether or not it was there |
| Ledger.Apply | step-function/lambda-scripts/log_to_dynamodb/lambda_function.py:32-33 | a put on a keyed table stores the item under its "IMAGE ID", replacing any item there, and changes nothing else; an item without a string key is rejected; a put on the error table appends |
| Ledger.ApplyKeepsKeys | step-function/lambda-scripts/log_to_dynamodb/lambda_function.py:32-33 | a put keeps every stored item under its own key |
| Ledger.Database.PutItem | step-function/lambda-scripts/log_to_dynamodb/lambda_function.py:32 | `put_item` applies the write, appends it to the journal when it succeeds, and changes nothing when it is rejected |
| Ledger.Database.QueryUploadHistory | step-function/lambda-scripts/check_for_duplicate_upload/lambda_function.py:12-17 | the query returns exactly the stored items whose "IMAGE ID" is the id, at most one |
| CheckForDuplicateUpload.RecordedIsLookup | step-function/lambda-scripts/check_for_duplicate_upload/lambda_function.py:12-19 | on a keyed table the query finds an item exactly when the id is a key of the table |
| CheckForDuplicateUpload.LambdaHandler | step-function/lambda-scripts/check_for_duplicate_upload/lambda_function.py:10-22 | the returned event is the input with only `is_duplicate` set, to whether the table holds the id; nothing is written |
| Pipeline.LoggedIsDuplicate | step-function/lambda-scripts/log_to_dynamodb/lambda_function.py:32-33 | after the ledger writer succeeds for an id, the tables stay keyed and the guard's query for that id finds it |
| Pipeline.LogThenCheck | step-function/lambda-scripts/check_for_duplicate_upload/lambda_function.py:19-20 | the ledger writer for an event, then the guard for a later event with the same id on the same database: after a successful log the later event is flagged a duplicate, and after a failed one the tables are unchanged and the guard answers from them |
| Aggregate.TopBounds | step-function/lambda-scripts/classify_image/automl/lambda_function.py:118-123 | the running top is never negative, no score exceeds it, and a positive top is some label's score |
| Aggregate.FoldIsTiedJoin | step-function/lambda-scripts/classify_image/automl/lambda_function.py:118-127 | the loop's running best ends with the top score and with the ", "-join, in response order, of every label scoring it, preceded by ", " when that top is the 0.0 start value |
| Aggregate.EmptyResponse | step-function/lambda-scripts/classify_image/automl/lambda_function.py:116-118 | an empty response gives the empty class and no probabilities |
| Aggregate.StrictWinner | step-function/lambda-scripts/classify_image/automl/lambda_function.py:121-123 | a label whose positive score is above every other score is predicted alone |
| Aggregate.LaterWinnerDiscardsTies | step-function/lambda-scripts/classify_image/automl/lambda_function.py:121-123 | a later strictly higher score replaces everything gathered before it |
| Aggregate.EqualScoreAppends | step-function/lambda-scripts/classify_image/automl/lambda_function.py:125-126 | an equal score appends ", " and the label to the running class |
| Aggregate.ProbabilitiesEntries | step-function/lambda-scripts/classify_image/automl/lambda_function.py:119-120 | the probabilities have one entry per returned label and no other, each holding the score of the label's last occurrence |
| Aggregate.ExampleTie | step-function/lambda-scripts/classify_image/automl/lambda_function.py:125-126 | scores A 0.7, B 0.9, C 0.9 predict "B, C" |
| Aggregate.ExampleLaterWinner | step-function/lambda-scripts/classify_image/automl/lambda_function.py:121-126 | scores A 0.9, B 0.9, C 0.95 predict "C" |
| Aggregate.ExampleZeroScore | step-function/lambda-scripts/classify_image/automl/lambda_function.py:125-126 | a first score of 0.0 is appended to the empty start name, giving ", A" |
| ClassifyAutoml.PredictClass | step-function/lambda-scripts/classify_image/automl/lambda_function.py:116-127 | the loop yields the probabilities of the response and the tie-join prediction of `Aggregate.PredictedClass` |
| ClassifyAutoml.LambdaHandler | step-function/lambda-scripts/classify_image/automl/lambda_function.py:60-131 | the handler returns the classified event or the failure of the header access or of the normalisation, and stages the encoded image under the image id only when the image was prepared |
| ClassifyAutoml.ClassifiedEvent | step-function/lambda-scripts/classify_image/automl/lambda_function.py:127-131 | a successful stage changes only `metadata` and `classification`; the metadata is that of the primary header, there is one probability per returned label, and the prediction is the tie join |
| ClassifySagemaker.ParseClasses | step-function/lambda-scripts/classify_image/sagemaker/lambda_function.py:37 | the CLASSES variable gives one class per comma-separated piece |
| ClassifySagemaker.ParseClassesPieces | step-function/lambda-scripts/classify_image/sagemaker/lambda_function.py:37 | each class is comma-free and has no whitespace at either end |
| ClassifySagemaker.ParseClassesJoin | step-function/lambda-scripts/classify_image/sagemaker/lambda_function.py:37 | for a variable without whitespace the classes joined with ',' give back the variable |
| ClassifySagemaker.PredictClassByIndex | step-function/lambda-scripts/classify_image/sagemaker/lambda_function.py:110-121 | each score is labelled by its position; a response longer than the classes is an IndexError, and otherwise the result is the probabilities and tie join of the labelled response |
| ClassifySagemaker.LambdaHandler | step-function/lambda-scripts/classify_image/sagemaker/lambda_function.py:47-125 | the handler returns the classified event or its failure, and stages the image only when it was prepared and is under the size ceiling |
| ClassifySagemaker.SizeCeiling | step-function/lambda-scripts/classify_image/sagemaker/lambda_function.py:96-99 | a prepared image fails with FileSizeException exactly when it has 5,000,000 bytes or more, and an image that is not staged gets the same answer whatever the endpoint would say |
| ClassifySagemaker.ClassifiedEvent | step-function/lambda-scripts/classify_image/sagemaker/lambda_function.py:121-125 | a successful stage changes only `metadata` and `classification`, the response is no longer than the classes, and the classification is that of the scores labelled by position |
| Normalize.MetadataOf | step-function/lambda-scripts/classify_image/automl/lambda_function.py:71 | each metadata entry is a listed keyword present in the header, with the header's value, and there are at most as many entries as keywords |
| Normalize.MetadataComplete | step-function/lambda-scripts/classify_image/automl/lambda_function.py:69-71 | every listed keyword the header has is in the metadata with its value |
| Normalize.MetadataKeysDistinct | step-function/lambda-scripts/classify_image/automl/lambda_function.py:71 | distinct keywords give distinct metadata keys |
| Normalize.SelectPlanes | step-function/lambda-scripts/classify_image/automl/lambda_function.py:73-86 | with more than four HDUs and HDU 4's EXTNAME 'SCI', HDUs 1 and 4 are selected as the two halves, or AttributeError when either has no data; otherwise HDU 1 alone is selected, or TypeError when it has no data; a missing EXTNAME is a KeyError and a missing HDU 1 an IndexError; only these cases give a selection |
| Normalize.MergedHalves | step-function/lambda-scripts/classify_image/automl/lambda_function.py:77-82 | for planes that numpy cannot stretch, the merge succeeds exactly when the widths agree and the second is as tall as the first or one row taller; rows [0, h1) are then the first plane's and the rest the second's |
| Normalize.MergedFirstRows | step-function/lambda-scripts/classify_image/automl/lambda_function.py:81 | the first slice assignment puts the first plane's rows at the top |
| Normalize.MergedSecondRows | step-function/lambda-scripts/classify_image/automl/lambda_function.py:82 | the second slice assignment puts the second plane's rows below them |
| Normalize.Merge | step-function/lambda-scripts/classify_image/automl/lambda_function.py:77-83 | allocating zeros and making both slice assignments in place gives the merged plane, or a mismatch error when numpy cannot broadcast |
| Normalize.MergedFromPixels | step-function/lambda-scripts/classify_image/automl/lambda_function.py:80-82 | a plane holding, pixel by pixel, what the two assignments write is the merge |
| Normalize.AssignRows | step-function/lambda-scripts/classify_image/automl/lambda_function.py:81-82 | `temp[lo:hi, :] = src` writes the broadcast source into rows [lo, hi) and leaves every other row |
| Normalize.ClampAbove | step-function/lambda-scripts/classify_image/automl/lambda_function.py:93 | `data[data > top] = top` in place: a pixel above `top` becomes `top`, every other pixel is kept |
| Normalize.ClampBelow | step-function/lambda-scripts/classify_image/automl/lambda_function.py:95 | `data[data < bottom] = bottom` in place: a pixel below `bottom` becomes `bottom`, every other pixel is kept |
| Normalize.Clamp | step-function/lambda-scripts/classify_image/automl/lambda_function.py:92-95 | the two in-place clamps give the clamped plane |
| Normalize.ClampBounds | step-function/lambda-scripts/classify_image/automl/lambda_function.py:92-95 | after the clamps no pixel is below `bottom`, none is above `top` when `bottom <= top`, pixels already in range are untouched, and the shape is kept |
| Normalize.ClampIdempotent | step-function/lambda-scripts/classify_image/automl/lambda_function.py:92-95 | clamping again to the same bounds changes nothing |
| Normalize.FlipUdInvolution | step-function/lambda-scripts/classify_image/automl/lambda_function.py:100 | `flipud` keeps the shape, puts row H-1-i at row i, and undoes itself |
| Normalize.NormalizedShape | step-function/lambda-scripts/classify_image/automl/lambda_function.py:68-100 | the normalised plane has HDU 1's shape, or the summed height of both halves when merged, has at least one pixel, and every pixel lies in [bottom, top] when bottom <= top |
| Normalize.ClampFlipShape | step-function/lambda-scripts/classify_image/automl/lambda_function.py:92-100 | clamping and then flipping keeps the plane's shape and leaves every pixel in [bottom, top] |
| Normalize.Normalize | step-function/lambda-scripts/classify_image/automl/lambda_function.py:68-100 | selection, merge, in-place clamps and flip give the normalised plane, or the selection's or merge's failure, or ZeroSizeArray for a plane without pixels |
| Normalize.Prepare | step-function/lambda-scripts/classify_image/automl/lambda_function.py:68-100 | the primary header's metadata and the normalised plane, or an IndexError for a file without HDUs, or ZeroSizeArray for a plane without pixels |
| Normalize.PixelsRequired | step-function/lambda-scripts/classify_image/automl/lambda_function.py:92-98 | a selected plane is prepared exactly when it has at least one row and one column; one without is the ZeroSizeArray failure of the percentile and minimum |
| CopyAndDeleteImage.DestinationIsNotStaging | step-function/lambda-scripts/copy_and_delete_image/lambda_function.py:23-27 | the destination key is never the staging key, and for an id without '/' it is the destination's last segment |
| CopyAndDeleteImage.RelocatedFrame | step-function/lambda-scripts/copy_and_delete_image/lambda_function.py:19-27 | after relocation the destination holds the former staging content, the staging key is gone, and every other key keeps its content |
| CopyAndDeleteImage.LambdaHandler | step-function/lambda-scripts/copy_and_delete_image/lambda_function.py:14-29 | copy then delete give the relocated bucket and the unchanged event, or a failure with the bucket untouched |
| CopyImageToFolder.CopiedFrame | step-function/lambda-scripts/copy_image_to_folder/lambda_function.py:19-24 | the raw object exists, only the destination key changes, and it takes the raw object's content |
| CopyImageToFolder.AsWrittenNeverCopies | step-function/lambda-scripts/copy_image_to_folder/lambda_function.py:19-21 | as written every event fails: without a classification on the key, otherwise on the Bucket object given as the copy source's bucket, even when the intended copy succeeds |
| CopyImageToFolder.AsWrittenExample | step-function/lambda-scripts/copy_image_to_folder/lambda_function.py:19-21 | a raw "a.fits" classified "Nebula" fails on the bucket parameter as written, and as intended its content reaches "Nebula/a" beside the staged "a" |
| CopyImageToFolder.LambdaHandler | step-function/lambda-scripts/copy_image_to_folder/lambda_function.py:14-26 | with the copy source naming the event's bucket, one copy gives the copied destination bucket and the unchanged event, or a failure with the destination untouched; a separate raw bucket never changes |
| LogToDynamodb.PrefixInjective | step-function/lambda-scripts/log_to_dynamodb/lambda_function.py:20-21 | different classes give different probability attributes |
| LogToDynamodb.NotFixedAttribute | step-function/lambda-scripts/log_to_dynamodb/lambda_function.py:14-21 | no probability attribute is one of the four fixed attributes |
| LogToDynamodb.ProbabilityAttributes | step-function/lambda-scripts/log_to_dynamodb/lambda_function.py:19-21 | one "PROBABILITY OF <class>" attribute per class and no other, each holding the class's score |
| LogToDynamodb.ProbabilitiesAvoidFixed | step-function/lambda-scripts/log_to_dynamodb/lambda_function.py:14-21 | the probability attributes leave the fixed attributes free |
| LogToDynamodb.BaseRecordKeys | step-function/lambda-scripts/log_to_dynamodb/lambda_function.py:14-24 | before the metadata the record has the four fixed attributes and the probability attributes |
| LogToDynamodb.BaseRecordFixed | step-function/lambda-scripts/log_to_dynamodb/lambda_function.py:14-24 | the id, predicted class, date and time attributes hold their values |
| LogToDynamodb.BaseRecordProbability | step-function/lambda-scripts/log_to_dynamodb/lambda_function.py:19-21 | each probability attribute holds its class's score |
| LogToDynamodb.WithMetadataEntries | step-function/lambda-scripts/log_to_dynamodb/lambda_function.py:25-29 | the metadata adds exactly its upper-cased names, each holding its last entry's value, and leaves every other attribute |
| LogToDynamodb.ProbabilityAttributesInsert | step-function/lambda-scripts/log_to_dynamodb/lambda_function.py:20-21 | adding a class adds its probability attribute |
| LogToDynamodb.Marker | step-function/lambda-scripts/log_to_dynamodb/lambda_function.py:33 | the upload-history item has only "IMAGE ID", whose key is the id |
| LogToDynamodb.RecordAttributes | step-function/lambda-scripts/log_to_dynamodb/lambda_function.py:14-29 | the record holds the id, the predicted class, each probability and the time stamp, except where an upper-cased metadata name takes the attribute over, and each metadata name holds its last value |
| LogToDynamodb.RecordKey | step-function/lambda-scripts/log_to_dynamodb/lambda_function.py:14-32 | the stored record's key is the image id unless a metadata name takes "IMAGE ID" over |
| LogToDynamodb.LoggedTables | step-function/lambda-scripts/log_to_dynamodb/lambda_function.py:32-33 | after both puts the record is under its key, the upload history holds the marker under the id, the error table is unchanged, and every other item keeps its place |
| LogToDynamodb.AddProbabilities | step-function/lambda-scripts/log_to_dynamodb/lambda_function.py:19-21 | the loop adds exactly the probability attributes to the record |
| LogToDynamodb.AddMetadata | step-function/lambda-scripts/log_to_dynamodb/lambda_function.py:25-29 | the loop adds each metadata entry under its upper-cased name, in order |
| LogToDynamodb.BuildRecord | step-function/lambda-scripts/log_to_dynamodb/lambda_function.py:13-29 | the method builds the record, or fails on a missing classification or metadata |
| LogToDynamodb.LambdaHandler | step-function/lambda-scripts/log_to_dynamodb/lambda_function.py:13-33 | the record then the marker are put, in that order, as exactly two journal entries; a failure before the first put changes nothing |
| LogError.Field | step-function/lambda-scripts/log_error/lambda_function.py:13-23 | a field of the parsed cause is found exactly when the cause is a JSON object with it, a missing field is a KeyError and a cause that is not an object a TypeError |
| LogError.ErrorRecordFields | step-function/lambda-scripts/log_error/lambda_function.py:13-31 | a record is built exactly when the cause parses to an object with both fields, neither a float, and it carries the id, key, bucket, error type and error message; a float field is a TypeError |
| LogError.FloatFieldRefused | step-function/lambda-scripts/log_error/lambda_function.py:22-31 | a cause whose error message is the JSON number 1.5 gives a TypeError, so no record is built |
| LogError.LambdaHandler | step-function/lambda-scripts/log_error/lambda_function.py:12-31 | one error record is appended, as one journal entry, or a failure, including boto3's refusal of a float field, leaves the tables unchanged |
| StartStateMachine.SplitKey | step-function/lambda-scripts/start_state_machine/lambda_function.py:43 | the unpacking succeeds exactly for one '.', splitting the key into '.'-free stem and extension; otherwise ValueError |
| StartStateMachine.FirstIndex | step-function/lambda-scripts/start_state_machine/lambda_function.py:45-50 | the position of the first '_', or the length when there is none |
| StartStateMachine.UnderscoreIndex | step-function/lambda-scripts/start_state_machine/lambda_function.py:45-50 | the counting loop stops at that position |
| StartStateMachine.SubgroupAfterFirstUnderscore | step-function/lambda-scripts/start_state_machine/lambda_function.py:45-51 | the subgroup is what follows the first '_', and "" when there is none |
| StartStateMachine.SubgroupOfParts | step-function/lambda-scripts/start_state_machine/lambda_function.py:45-51 | an id made of an underscore-free stem, '_' and a rest has that rest as subgroup |
| StartStateMachine.ExampleSpt | step-function/lambda-scripts/start_state_machine/lambda_function.py:29-34 | `idpya7i2q_spt` has subgroup `spt` |
| StartStateMachine.ExampleSptRejected | step-function/lambda-scripts/start_state_machine/lambda_function.py:29-34 | the example key `hst/public/idpy/idpya7i2q/idpya7i2q_spt.fits` is parsed to image id `idpya7i2q_spt` and subgroup `spt`, and the gate does not accept it |
| StartStateMachine.ExampleFltThumb | step-function/lambda-scripts/start_state_machine/lambda_function.py:36-41 | `idpya7i0q_flt_thumb` has subgroup `flt_thumb` |
| StartStateMachine.GetErrorMsg | step-function/lambda-scripts/start_state_machine/lambda_function.py:12-20 | the message is the header followed by the valid elements joined with ", ", with no trailing separator |
| StartStateMachine.CollectProblems | step-function/lambda-scripts/start_state_machine/lambda_function.py:58-64 | every element is checked and each failing one adds its message, in order |
| StartStateMachine.TwoProblems | step-function/lambda-scripts/start_state_machine/lambda_function.py:58-64 | two checks give the first one's message, if any, then the second one's |
| StartStateMachine.GateProblems | step-function/lambda-scripts/start_state_machine/lambda_function.py:53-64 | both checks run, the extension's message before the subgroup's, and there is none exactly when both are valid |
| StartStateMachine.NumberProblems | step-function/lambda-scripts/start_state_machine/lambda_function.py:68-69 | the reasons are numbered from 1 in order |
| StartStateMachine.Validate | step-function/lambda-scripts/start_state_machine/lambda_function.py:53-79 | the execution starts exactly when extension and subgroup are valid, with the id, subgroup, key and bucket as input; otherwise the numbered report is printed |
| StartStateMachine.LambdaHandler | step-function/lambda-scripts/start_state_machine/lambda_function.py:43-86 | a key fails to unpack exactly when it has not one '.', starts an execution exactly when accepted, and is otherwise rejected with the report of its problems |
| DatasetSplit.ClassNames | train-validation-test-split.py:23-24 | the classes are the root's entries other than '.DS_Store' |
| DatasetSplit.ImageNames | train-validation-test-split.py:30-32 | the images are the entries ending in .jpg, .png or .gif, without repeats when the listing has none |
| DatasetSplit.CutPoints | train-validation-test-split.py:34-37 | with non-negative proportions summing to at most 1 both cut points lie inside the list, in order |
| DatasetSplit.SplitAtPartition | train-validation-test-split.py:35-39 | cuts inside the list give consecutive slices of the chosen sizes that make up the list |
| DatasetSplit.SplitPartition | train-validation-test-split.py:34-39 | train is the first `int(t·n)` images, validation the next `int(v·n)`, test the rest, and together they are the shuffled list |
| DatasetSplit.SplitDisjoint | train-validation-test-split.py:40-42 | for distinct names the three slices are pairwise disjoint, so the triple overlap check passes |
| DatasetSplit.PartsDisjoint | train-validation-test-split.py:40-42 | three consecutive parts of a list without repeats share no name |
| DatasetSplit.NegativeProportionOverlap | train-validation-test-split.py:16-42 | proportions -0.5, 0.5 and 1.0 pass the sum check, and train and test then share images while the triple check passes |
| DatasetSplit.OverlapCheckPasses | train-validation-test-split.py:30-42 | with valid proportions, a folder listing without repeated names and a shuffle that only reorders, the overlap check never fails |
| DatasetSplit.DistinctCount | train-validation-test-split.py:30 | a listing without repeated names holds each name at most once |
| DatasetSplit.PermutationDistinct | train-validation-test-split.py:33 | a reordering of a list without repeats has none |
| DatasetSplit.ShuffledWithoutSlash | train-validation-test-split.py:30-33 | the shuffled images of a listing whose names have no '/' have none |
| DatasetSplit.SumChecked | train-validation-test-split.py:16-17 | the script stops with the sum message, having touched nothing, exactly when the proportions do not sum to 1.0 |
| DatasetSplit.ClassesNeverSumError | train-validation-test-split.py:28-52 | once the sum check is passed no later step fails with its message |
| DatasetSplit.Place | train-validation-test-split.py:46-49 | the split's class folder exists afterwards and no file changes |
| DatasetSplit.PathJoinInjective | train-validation-test-split.py:52 | a path joined to a '/'-free name determines both |
| DatasetSplit.SplitDirsDiffer | train-validation-test-split.py:46 | different split names give different folders |
| DatasetSplit.SourceIsNoSplitDir | train-validation-test-split.py:52 | the class folder is none of its split folders |
| DatasetSplit.CopyAllFrame | train-validation-test-split.py:51-52 | successful copies change no folder, add exactly the destination paths and leave every other file |
| DatasetSplit.CopyAllContents | train-validation-test-split.py:51-52 | successful copies leave each name in the destination with the content the source folder has under it |
| DatasetSplit.CopyAllFileErrors | train-validation-test-split.py:51-52 | a failure of the copies is a file-system error |
| DatasetSplit.PlaceSplitsFrame | train-validation-test-split.py:43-52 | the split copies leave every file they do not copy to |
| DatasetSplit.PlaceSplitsContents | train-validation-test-split.py:43-52 | each split's names end up in the split's folder with the class folder's content |
| DatasetSplit.PlaceSplitsFileErrors | train-validation-test-split.py:43-52 | a failure of the split copies is a file-system error |
| DatasetSplit.SlicesWithoutSlash | train-validation-test-split.py:35-39 | the slices hold only names of the list, so '/'-free names stay so |
| DatasetSplit.SplitListSeparate | train-validation-test-split.py:43-45 | the three splits have different '/'-free folder names |
| DatasetSplit.SplitClassPlaces | train-validation-test-split.py:28-52 | for a listing whose names have no '/' and a shuffle that only reorders, a successfully split class has every train, validation and test image in `<root>/<split>/<class>` with the content it has in `<root>/<class>` |
| DatasetSplit.FileSystem.MakeDirs | train-validation-test-split.py:48-49 | `os.makedirs` adds the folder and every parent of it and changes no file |
| DatasetSplit.FileSystem.CopyFile | train-validation-test-split.py:52 | `copyfile` needs the source file and the destination folder, then writes the destination path, and otherwise fails changing nothing |
| DatasetSplit.CopyImages | train-validation-test-split.py:51-52 | the copy loop gives the file system and outcome of `CopyAll` |
| DatasetSplit.CopySplits | train-validation-test-split.py:43-52 | the split loop gives the file system and outcome of `PlaceSplits` |
| DatasetSplit.RunScript | train-validation-test-split.py:16-52 | the whole script gives the file system and outcome of `Script`: the sum check, then every class in listing order |
| TableRows.ChunksFlatten | webscraping/scrape-and-plot.py:19-26 | the rows, one after the other, are the cells |
| TableRows.ChunksShape | webscraping/scrape-and-plot.py:20-26 | every row but the last has one cell per header, and the last has between one and that many, or none for no cells |
| TableRows.ChunksCount | webscraping/scrape-and-plot.py:18-26 | for n > 0 cells there are ⌈n/w⌉ rows |
| TableRows.FeedChunks | webscraping/scrape-and-plot.py:19-26 | the loop from a partial row stores the chunks of what remains, a lone last cell broadcast across its row, or fails with ValueError when the last row can hold neither |
| TableRows.FeedEnd | webscraping/scrape-and-plot.py:26 | the row stored after the loop succeeds when it is full or, for at least two headers, a single broadcast cell |
| TableRows.FullRowFirst | webscraping/scrape-and-plot.py:22-25 | a full `temp` is stored as a row of its own before the next cell starts a new one, and whether the rest can be stored decides |
| TableRows.GroupedMeaning | webscraping/scrape-and-plot.py:19-26 | the grouping succeeds exactly when there are cells and the last row is full or holds one cell, giving the chunks of the cells with that cell broadcast; with no headers only no cells succeed, giving one empty row; every failure is a ValueError |
| TableRows.GroupedRows | webscraping/scrape-and-plot.py:19-26 | a successful grouping holds the cells in order followed only by copies of a broadcast last cell, gives every row one cell per header, and for a multiple of the header count is exactly the cells |
| TableRows.PartialRowFails | webscraping/scrape-and-plot.py:26 | no cells, or a last row of between two cells and one short of full, make the table fail |
| TableRows.OneCellRowBroadcast | webscraping/scrape-and-plot.py:26 | for two or more headers, a single cell left for the last row fills that whole row, after full rows holding the cells before it |
| TableRows.PaddedFull | webscraping/scrape-and-plot.py:19-26 | cells that can be stored pad to a positive multiple of the header count |
| TableRows.FullChunks | webscraping/scrape-and-plot.py:19-26 | chunks of a positive multiple of w cells are all full, and there are that many over w |
| TableRows.DataFrame.SetRow | webscraping/scrape-and-plot.py:23 | `table.loc[inc, :] = temp` stores the row fitted to the columns under an existing or the next label, and a row that does not fit is a ValueError changing nothing |
| TableRows.Fit | webscraping/scrape-and-plot.py:23 | a row fits exactly when it has one value per column or, with at least one column, a single value, which is then repeated; otherwise ValueError |
| TableRows.Padded | webscraping/scrape-and-plot.py:19-26 | the cells as stored: the cells, then for two or more headers and one cell left over, copies of the last cell up to a full row |
| TableRows.Extract | webscraping/scrape-and-plot.py:13-28 | the loop with `temp` and `inc` stores the grouped rows under the headers |
| TableRows.NoDigitMarkerKept | webscraping/scrape-and-plot.py:35-37 | text in which no "[d]" starts is kept as it is |
| TableRows.DigitMarkerRemoved | webscraping/scrape-and-plot.py:35-37 | a "[d]" after text with no '[' is dropped and the text before it kept |
| TableRows.DigitMarkerExamples | webscraping/scrape-and-plot.py:35-37 | "Name[1]" gives "Name" |
| TableRows.TwoDigitsKept | webscraping/scrape-and-plot.py:35-37 | "[12]" is not a marker |
| TableRows.NestedMarker | webscraping/scrape-and-plot.py:35-37 | a removal is not looked back across: "[[1]1]" gives "[1]" |
| TableRows.WordRunMeaning | webscraping/scrape-and-plot.py:41 | `\w+` takes the whole run of word characters and no more |
| TableRows.WordMarkerAt | webscraping/scrape-and-plot.py:41 | a "[word]" marker starts with '[' and ends with ']' inside the text |
| TableRows.WordMarkerRemoved | webscraping/scrape-and-plot.py:41-43 | a "[word]" after text with no '[' is dropped and the text before it kept |
| TableRows.KeptPrefix | webscraping/scrape-and-plot.py:41-43 | text with no '[' is kept whole |
| TableRows.KeptFront | webscraping/scrape-and-plot.py:41-43 | a character other than '[' starts no marker and is kept |
| TableRows.WordMarkerFront | webscraping/scrape-and-plot.py:41-43 | a "[word]" at the front is dropped |
| TableRows.DigitMarkerIsWordMarker | webscraping/scrape-and-plot.py:35-43 | every "[d]" is also a "[word]" marker |
| TableRows.WordMarkerExample | webscraping/scrape-and-plot.py:41-43 | "Abell clusters[edit]" gives "Abell clusters" |
| TableRows.StripAll | webscraping/scrape-wikipedia-and-plot.py:28 | each cell is its text stripped |
| TableRows.InsertLookup | webscraping/scrape-and-plot.py:44 | after `tables[key] = value` the key maps to the value and every other key to what it did |
| TableRows.InsertKeys | webscraping/scrape-and-plot.py:44 | a key already in the dictionary keeps its place and a new key goes last |
| TableRows.LastWithKey | webscraping/scrape-and-plot.py:40-44 | the index of a table with the key after which no table has it |
| TableRows.CollectedAllOk | webscraping/scrape-and-plot.py:40-44 | after a successful loop every table had a key and could be grouped |
| TableRows.CollectedLookup | webscraping/scrape-and-plot.py:40-44 | after the loop a key holds the rows of the last table with it, and otherwise what the dictionary held |
| TableRows.PagesFail | webscraping/scrape-sharplesscatalog-and-plot.py:37-44 | the page loop fails exactly when some page cannot be grouped |
| TableRows.PagesRows | webscraping/scrape-sharplesscatalog-and-plot.py:37-44 | a successful page loop holds every page's cells in page order, each lone last cell broadcast, in full rows |
| TableRows.WidthsAppend | webscraping/scrape-sharplesscatalog-and-plot.py:44 | rows of one width appended to rows of that width keep it |
| TableRows.PagesInOrder | webscraping/scrape-sharplesscatalog-and-plot.py:37-44 | both of the above together |
| TableRows.FailureStays | webscraping/scrape-sharplesscatalog-and-plot.py:37-44 | once a page fails the later pages do not change the failure |
| TableRows.CollectPages | webscraping/scrape-sharplesscatalog-and-plot.py:37-44 | the page loop gives the collection of the pages in page order |
| TableRows.CleanHeaderUnmarked | webscraping/scrape-and-plot.py:35-37 | a header whose stripped text has no "[d]" is its stripped text |
| TableRows.CleanHeaderExample | webscraping/scrape-and-plot.py:35-37 | " Dec[2]" gives "Dec" |
| TableRows.CleanHeaderKeepsTwoDigits | webscraping/scrape-and-plot.py:35-37 | "[12]" is kept |
| ScrapeAndPlot.ExtractFromSoup | webscraping/scrape-and-plot.py:13-28 | extraction groups the cells from `start_index` on |
| ScrapeAndPlot.ExtractedRows | webscraping/scrape-and-plot.py:13-28 | the table exists exactly when the cells from `start_index` on fill whole rows, or for two or more headers leave one cell, which is broadcast; it then has the headers as columns and those cells in index order, followed only by that cell's copies |
| ScrapeAndPlot.GetTables | webscraping/scrape-and-plot.py:31-46 | the loop builds the dictionary of every table by its key |
| ScrapeAndPlot.TablesByKey | webscraping/scrape-and-plot.py:39-44 | a key is in the dictionary exactly when some table has it, and it holds the last such table's cells in full rows under the cleaned headers, a lone last cell broadcast |
| ScrapeAndPlot.SharplessCollection | webscraping/scrape-and-plot.py:81-99 | the first page's headers, stripped with no marker removal, then the Sharpless pages without their first cell, in page order; these lines repeat the Sharpless script, so the method calls `ScrapeSharpless.Scrape`, and the meaning is the one `ScrapeSharpless.ScrapedInPageOrder` states |
| ScrapeAndPlot.Coordinate | webscraping/scrape-and-plot.py:114-115 | a cleaned coordinate is the text from its first to its last non-whitespace character with each no-break space made a space; everything around it is whitespace, and it has no no-break space and no surrounding whitespace |
| ScrapeSharpless.ExtractFromSoup | webscraping/scrape-sharplesscatalog-and-plot.py:12-25 | extraction groups a page's cells after the first |
| ScrapeSharpless.FirstCellSkipped | webscraping/scrape-sharplesscatalog-and-plot.py:16-23 | exactly the first cell is dropped, and the other cells fill the rows in order, a lone last cell broadcast |
| ScrapeSharpless.Scrape | webscraping/scrape-sharplesscatalog-and-plot.py:28-45 | the stripped headers of the first page, then the page loop |
| ScrapeSharpless.ScrapedInPageOrder | webscraping/scrape-sharplesscatalog-and-plot.py:37-45 | the collection fails exactly when some page cannot be grouped, and otherwise holds every page's cells but the first, in page order and full rows under the stripped headers, each page's lone last cell broadcast |
| ScrapeWikipedia.GroupStripped | webscraping/scrape-wikipedia-and-plot.py:25-35 | the inline loop, stripping each cell as it takes it, stores the same rows under the headers as grouping the stripped cells |
| ScrapeWikipedia.GetTables | webscraping/scrape-wikipedia-and-plot.py:11-37 | the tables by key, each from the cleaned headers and its stripped cells, with the first missing key or unstorable table as the failure |
| ScrapeWikipedia.TablesByKey | webscraping/scrape-wikipedia-and-plot.py:20-35 | a key is in the dictionary exactly when some table has it, and it holds the last such table's stripped cells in full rows, a lone last cell broadcast |
| ScrapeWikipedia.Coordinate | webscraping/scrape-wikipedia-and-plot.py:66-67 | each no-break space becomes a space and nothing else changes |

The rows' contracts are stated against these reference functions, each of which models the source lines given here:
- `LogError.ErrorRecord`: step-function/lambda-scripts/log_error/lambda_function.py:13-31.
- `CopyAndDeleteImage.Relocated`: step-function/lambda-scripts/copy_and_delete_image/lambda_function.py:19-27.
- `CopyImageToFolder.CopiedWith`, `CopyImageToFolder.Copied` and `CopyImageToFolder.CopiedAsWritten`: step-function/lambda-scripts/copy_image_to_folder/lambda_function.py:19-24.
- `TableRows.Feed` and `TableRows.Grouped`: webscraping/scrape-and-plot.py:16-26, and the same loops in the other two scrapers.
- `TableRows.RemoveDigitMarkers`, `TableRows.CleanHeader` and `TableRows.CleanedHeaders`: webscraping/scrape-and-plot.py:34-36 and webscraping/scrape-wikipedia-and-plot.py:15-17.
- `TableRows.RemoveWordMarkers` and `TableRows.KeyOf`: webscraping/scrape-and-plot.py:40-42 and webscraping/scrape-wikipedia-and-plot.py:21-23.
- `TableRows.Collected`: webscraping/scrape-and-plot.py:38-45 and webscraping/scrape-wikipedia-and-plot.py:20-35.
- `TableRows.StrippedHeaders` and `TableRows.PagesScraped`: webscraping/scrape-sharplesscatalog-and-plot.py:28-45 and webscraping/scrape-and-plot.py:81-99.
- `DatasetSplit.SplitImages`: train-validation-test-split.py:34-39.
- `DatasetSplit.PlaceSplits`: train-validation-test-split.py:43-52.
- `DatasetSplit.SplitClass`: train-validation-test-split.py:30-52.
- `DatasetSplit.Script`: train-validation-test-split.py:16-52.

## Left out

- Network and cloud services are not modelled: S3 downloads, the AutoML and SageMaker calls, SNS and Step Functions. The classifier's answer is a function parameter (`predict`, `invoke`). The tables and the bucket are plain state with no failure or latency.
- The SNS record unwrapping (`json.loads` of the message) and the `start_execution` call are left out. The gate starts from the bucket and key and returns the execution input it would send.
- The execution name (`uuid4`) and the clock are left out. The clock's reading is a `Timestamp` parameter with the date and time already formatted.
- `print` output and `SystemExit` are not modelled as such. The model returns the printed report lines as a value, and a rejection is the `Rejected` outcome.
- FITS decoding is left out. A file is given as its HDUs, each a header and an optional integer plane.
- Percentiles are left out: `top` and `bottom` are parameters. Only their failure on a plane without pixels is modelled (`ZeroSizeArray`).
- Pixels are integers, not floating point, so the NaN and rounding behaviour of numpy is not modelled.
- Rescaling, `np.uint8` truncation and JPEG encoding are one `encode` parameter.
- Temporary files and `os.remove` are left out.
- `str(round(score, 8))` and `Decimal(...)` are left out. Scores are reals, stored as they are.
- The metadata's float-to-Decimal conversion in the ledger writer is left out. Metadata values are stored as they are.
- `json.loads` of the error cause is a `parse` parameter returning a JSON object, another JSON value, or nothing. When parsing fails, the raw text is subscripted with a string key; that TypeError is modelled.
- The error table is an append-only list. Its real key schema is not in the code, and neither is the classification table's. Both keyed tables are assumed keyed by "IMAGE ID".
- CopyImageToFolder.LambdaHandler: models the copy with the copy source naming the event's bucket, the bucket it receives as `raw` (see Findings). As written, botocore rejects the Bucket object before any copy; that behaviour is `CopyImageToFolder.CopiedAsWritten`. Which bucket a name denotes is left to the caller: the handler is handed the raw bucket rather than looking it up by `event['s3']['bucket']`.
- The split script's argument parsing, `seed` and `shuffle` are left out. The shuffle is a function parameter, and the folder listings are a map from class folder to its entries. Lemmas that need it assume only that the shuffle reorders (`DatasetSplit.Permutes`).
- DatasetSplit.Share, DatasetSplit.SplitImages and DatasetSplit.Script: the proportions are exact reals, not IEEE doubles. Python computes `int(0.7 * 90)` as 62, because 0.7 * 90 is 62.99999999999999; the model gives 63. Python also rejects 0.6 + 0.3 + 0.1, which sums to 0.9999999999999999, while the model accepts it.
- DatasetSplit.SplitPartition: the slice sizes it states are `int()` of the exact real products, so they can differ by one from the double products for the same proportions.
- DatasetSplit.SumChecked: the sum it compares with 1.0 is the exact real sum, so proportions whose double sum misses 1.0 by rounding pass in the model.
- DatasetSplit.RunScript: it inherits the exact-real proportions of `Script`: the slice sizes and the sum check may differ from the script's double arithmetic.
- `os.path.join` is joining with '/'. Absolute second arguments are not modelled.
- The script's per-class count printing is left out.
- HTTP fetching, BeautifulSoup and Selenium are left out. A page's tables are given as their previous-sibling text, `th` texts and `td` texts. The Sharpless pages reached by the Next button are a function from page number to cells.
- Plotting, SkyCoord conversion, `pd.concat` of the per-page dictionaries and the column renames in the main scripts are left out. Only the coordinate text clean-up is modelled.
- `\d` and `\w` are restricted to ASCII digits, letters and '_'. Python's `re` also accepts other Unicode digits and letters.
- `upper()` and `title()` change ASCII letters only. Python also changes other cased Unicode letters.
- `strip()` uses the whitespace set of Python's `str.isspace`.
- The pandas DataFrame is reduced to its columns and its rows in label order. An empty header list groups no cells into one empty row, as `loc` with no columns does.
- TableRows.DataFrame.SetRow: a row that does not fit a new label leaves nothing in the model. pandas has already added a NaN row under that label, but the ValueError ends the extraction and the table is never seen.
- numpy broadcasting is modelled only for the one-value row `TableRows.Fit` accepts. For a two-dimensional object block numpy accepts no other length.
- The state machine's own definition is not part of this model. No transition between stages is assumed; `Pipeline` composes only the two handlers' contracts.
- Text.NatToString: its contract states only that `str(n)` is a non-empty digit string. The value is stated separately by `Text.NatToStringValue`.
- The context scripts are not part of this model: the training and deployment wrappers, the bucket back-fill, the image transforms, the CSV generator, the query-and-plot script and the older copies of the two classifiers.

## Findings

| source | as written | input that shows it | evidently intended | confidence | as-written member | corrected member |
|---|---|---|---|---|---|---|
| step-function/lambda-scripts/copy_image_to_folder/lambda_function.py:19-21 | the copy source's 'Bucket' entry is the `s3.Bucket` object `destination_bucket`, which botocore refuses as a bucket name, so no classified image is ever copied | an event for "a.fits" classified "Nebula", with the raw object present | `{'Bucket': bucket, 'Key': key}`: `bucket` is read at line 15 and never used, and `key` is the raw object the classifier stages download from that bucket | not executed | CopyImageToFolder.AsWrittenNeverCopies | CopyImageToFolder.LambdaHandler |
