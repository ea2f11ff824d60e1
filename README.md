# Food caption classifier and upload handler

This project models the core of a small image-captioning web service. A client
posts an image to `POST /upload`. The service stores the image under a name made
of a random hex token and the sanitised client file name. A pretrained model
captions the image, and a keyword classifier maps the caption to one of five food
categories: Fruit, Vegetable, Beverage, Snack or Unknown.

The model has three parts:

- `PyStr` (`pystr.dfy`): the two Python string operations the classifier uses.
  `Lower` is `str.lower()` restricted to ASCII. `Contains` is the substring test
  `w in c`, proved equal to the specification predicate `Occurs` ("some position
  starts a copy of the needle").
- `FoodCategory` (`category.dfy`): `categorize_food`. It lower-cases the caption
  and checks four fixed keyword lists in priority order. The first list with a
  keyword occurring as a substring gives the label. `Classify` returns the
  category as a datatype. `CategorizeFood` returns the label string the service
  sends. Their contracts characterise every result in terms of which lists are
  `Mentions`ed in the lower-cased caption. `CategoryScenarios` (`scenarios.dfy`)
  proves the category of several example captions.
- `UploadHandler` (`upload.dfy`): the decision skeleton of the upload handler, as
  a pure function. The random token, the `secure_filename` sanitiser, the outcome
  of writing the file and the outcome of captioning are parameters. The response
  is a status plus a JSON object modelled as `map<string, string>`, so "only the
  `error` key" is a checkable property.

The handler catches failures while loading and captioning the image
(app.py:47-61). `image.save` (app.py:45) runs before that `try`, so a failed
write escapes the handler. The model makes this a separate outcome, `SaveRaised`.

## Model

| member | source | states |
|---|---|---|
| `PyStr.Lower` | app.py:22 | lower-casing keeps the length, maps each character by ASCII lower-casing, and leaves no upper-case letter |
| `PyStr.LowerIdempotent` | app.py:22 | lower-casing an already lower-cased caption changes nothing |
| `PyStr.LowerOfLowercase` | app.py:22 | a string with no upper-case letter is its own lower-cased form |
| `PyStr.LowerAppend` | app.py:22 | lower-casing distributes over concatenation, so a keyword inside a caption is lower-cased in place |
| `PyStr.Contains` | app.py:23 | `w in c` is true exactly when some position of `c` starts a copy of `w` |
| `PyStr.OccursInMiddle` | app.py:23 | a string occurs in any string that embeds it between a prefix and a suffix |
| `FoodCategory.AnyIn` | app.py:23 | `any(w in c for w in words)` is true exactly when some keyword of the list occurs in `c` |
| `FoodCategory.Classify` | app.py:21-31 | the result is Fruit iff a fruit keyword occurs in the lower-cased caption; Vegetable iff none does and a vegetable keyword does; Beverage and Snack likewise below all earlier lists; Unknown iff no keyword of any list occurs |
| `FoodCategory.CategorizeFood` | app.py:21-31 | the label is always one of "Fruit", "Vegetable", "Beverage", "Snack", "Unknown", and each label is returned exactly when the priority rule above selects it |
| `FoodCategory.KeywordsAreLowercase` | app.py:23-29 | every keyword of the four lists is written in lower case |
| `FoodCategory.CaseInsensitive` | app.py:22 | a caption and its lower-cased form get the same category |
| `FoodCategory.KeywordInAnyCase` | app.py:22-29 | a keyword spelled in any mix of cases anywhere in a caption is found by the list check |
| `FoodCategory.NoneMentioned` | app.py:23-29 | a keyword one of whose characters is absent from the caption cannot occur in it |
| `FoodCategory.FruitWinsInAnyCase` | app.py:22-24 | a caption containing a fruit keyword, in any case, is "Fruit" whatever other keywords it contains |
| `CategoryScenarios.BananasAreFruit` | app.py:23-24 | "a bunch of bananas on a table" is "Fruit" |
| `CategoryScenarios.OrangeJuiceIsFruit` | app.py:23-28 | "a bottle of orange juice" is "Fruit", not "Beverage": list priority decides, not keyword position |
| `CategoryScenarios.PineappleIsFruit` | app.py:23-24 | matching is by substring: "pineapple" matches "apple" |
| `CategoryScenarios.RedCarIsUnknown` | app.py:23-31 | "a red car" mentions no keyword and is "Unknown" |
| `CategoryScenarios.DrinkingIsBeverage` | app.py:23-28 | "drinking water" is "Beverage", because "drink" occurs inside "drinking" |
| `UploadHandler.ErrorResponse` | app.py:36 | an error response carries its status and exactly one field, `error` |
| `UploadHandler.Upload` | app.py:34-61 | a missing field gives 400 "No image file provided"; otherwise an empty file name gives 400 "No selected file"; 400 is returned exactly in these cases, and then nothing is stored; with a usable file the file is written at `static/uploads/<token>_<sanitised name>`, and a failed write escapes the handler; a captioning failure gives exactly 500 "Failed to process image" with only the `error` field; success gives status 200 with exactly `image_url`, `caption` and `category`, where the URL is `/static/uploads/<token>_<sanitised name>`, the caption is verbatim, and the category is `CategorizeFood` of the caption |
| `UploadHandler.ResponsesAreWellFormed` | app.py:36-61 | every reply the handler itself builds has status 200, 400 or 500, and every such error reply has only the `error` field (the 413 for an oversized body and the framework's page for a failed save are not replies the handler builds) |
| `UploadHandler.ImageUrlServesStoredFile` | app.py:43-55 | the returned `image_url` is `/` followed by the path of the file the request stored |
| `UploadHandler.DistinctTokensNeverCollide` | app.py:42-45 | two uploads with different 32-digit hex tokens are stored under different paths whatever their file names, so no upload overwrites another |

## Left out

- `PyStr.Lower`: models ASCII lower-casing only. Python's `str.lower()` also lower-cases non-ASCII letters, and some of them become ASCII letters. For example, the Kelvin sign becomes `k`. So a caption spelling "coke" with a Kelvin sign is a Beverage in the service, but not in the model.
- Flask application setup, routing, CORS and the static-file route `uploaded_file` (app.py:10-11, 63-65): framework plumbing with no decisions of its own.
- The 5 MB `MAX_CONTENT_LENGTH` limit (app.py:15): for an oversized request, reading `request.files` at app.py:35 raises 413, so none of the handler's own branches runs.
- Loading the BLIP processor and model, image decoding with PIL, and inference (app.py:18-19, 48-51): opaque. Their combined result is the `Captioning` parameter, a caption or a failure.
- `uuid.uuid4().hex` (app.py:43): random. The token is a parameter. Uniqueness across uploads is a probabilistic property. The model proves only that different tokens give different paths.
- `werkzeug.utils.secure_filename` (app.py:42): library code, not part of this model. It is a function parameter, and every property holds for any sanitiser, including one that returns the empty string.
- The file write `image.save` (app.py:45): its effect is the `stored` path in the outcome, and its success is the `saveOk` parameter. What the framework sends when the write raises is not modelled.
- Server-side logging of the exception text (app.py:60), `os.makedirs` and `app.run` (app.py:16, 67-68): I/O with no effect on the response.
