# AR-Drawing overlay core in Dafny

AR-Drawing is an iOS app. It overlays a semi-transparent reference image on the
camera feed so the user can trace it on paper. Nearly all of the app is SwiftUI
layout, camera plumbing and Firestore queries. This project models the three
pieces of it that contain real logic, and proves what each promises:

- **`Matte.dfy`**: the white-background matte, `UIImage.removingWhiteBackground(threshold:)`
  in `UIImage+.swift`. The image is drawn into a zero-filled RGBA buffer of
  `width * height * 4` bytes. One stride-4 loop then walks the buffer in place
  and sets a pixel's alpha byte to 0 whenever its red, green and blue bytes are
  all strictly above the threshold (default 240). The loop is a method on an
  `array<UInt8>`. It is proved equal to a pixel-by-pixel reference function,
  `Matted`. The lemmas about `Matted` cover:
  - the buffer length is kept;
  - colour bytes are never written;
  - alpha is cleared exactly for near-white pixels;
  - running the matte twice is the same as running it once;
  - threshold 255 changes nothing;
  - pixels are matted independently of each other.
- **`Overlay.dfy`**: the overlay pose of `DetailView`. The class
  `DetailViewState` holds the committed `position`, `finalZoom` and `finalAngle`.
  There is one method for each gesture's `onEnded` handler:
  - a drag commits `clamp(old + translation)`, with x in [-150, 150] and y in [-150, 450];
  - a pinch commits `clamp(finalZoom * factor)` into [0.5, 2.5];
  - a rotation adds its delta, with no bound.

  The pure `Render` function composes the committed values with the in-progress
  gesture values, without any clamping, at opacity 0.4. Lemmas show when the
  pose jumps at the moment a gesture is released.
- **`Categories.dfy`**: the catalogue mapping of `CategoryService` in
  `CategoriesHomeView.swift`. The listing fetch keeps the active, well-typed
  documents that have at least one image. It maps each one to a
  `CategoryPreview` (image count and first image). `compactMap` is proved to
  give an order-preserving subsequence of the documents. The `isLoading`,
  `errorMessage` and `categories` updates around the fetch are modelled as a
  class whose methods are proved against the pure `Started` and `Completed`. The
  detail fetch uses the same typed checks but also accepts an empty image list.

`Wrappers.dfy` holds `Option`, which stands for Swift's optionals.

## Model

| member | source | states |
|---|---|---|
| `Matte.MattedLength` | ARDrawing/ARDrawing/UIImage+.swift:37-45 | the matte keeps the buffer length (4 bytes per pixel) |
| `Matte.MattedAt` | ARDrawing/ARDrawing/UIImage+.swift:37-45 | each output byte depends only on its own pixel: an alpha byte becomes 0 when the pixel's red, green and blue bytes are all above the threshold; every other byte equals the input byte |
| `Matte.MattedPixelAt` | ARDrawing/ARDrawing/UIImage+.swift:38-44 | for each pixel, the RGB bytes are unchanged; the alpha byte is 0 if all three exceed the threshold and keeps its original value otherwise |
| `Matte.MattedIdempotent` | ARDrawing/ARDrawing/UIImage+.swift:37-45 | running the matte on its own output changes nothing |
| `Matte.MattedAt255` | ARDrawing/ARDrawing/UIImage+.swift:42 | no UInt8 exceeds 255, so threshold 255 leaves every buffer unchanged |
| `Matte.MattedConcat` | ARDrawing/ARDrawing/UIImage+.swift:37-45 | pixels are matted independently: matting two buffers joined end to end gives the two mattes joined |
| `Matte.MattedExamples` | ARDrawing/ARDrawing/UIImage+.swift:42-43 | at threshold 240, (250,252,245,255) gets alpha 0 and (200,252,245,255) is left unchanged |
| `Matte.ClearNearWhitePixels` | ARDrawing/ARDrawing/UIImage+.swift:37-45 | the in-place stride loop visits the pixel starts 0, 4, 8, ... below the length once each and in order, and leaves the array equal to the reference matte of its old contents |
| `Matte.Draw` | ARDrawing/ARDrawing/UIImage+.swift:35 | drawing fills the buffer with the decoded samples, and zero where the bitmap has none |
| `Matte.DrawnKeepsSamples` | ARDrawing/ARDrawing/UIImage+.swift:20-35 | the drawn buffer has the allocated length; it equals the bitmap's samples when there is one per byte, is their prefix when there are more, and starts with them when there are fewer |
| `Matte.RemovingWhiteBackground` | ARDrawing/ARDrawing/UIImage+.swift:11-59 | the threshold defaults to 240; the result is nil exactly when there is no bitmap, no input context or no output image; otherwise it has the source's width and height, a buffer of width*height*4 bytes, and the matte of the drawn buffer at the given threshold |
| `Overlay.DragCommit` | ARDrawing/ARDrawing/DetailView.swift:97-101 | the committed position is within x in [-150,150] and y in [-150,450]; each axis is old plus translation, clamped on its own; an in-range sum is stored exactly |
| `Overlay.ZoomCommit` | ARDrawing/ARDrawing/DetailView.swift:107-109 | the committed zoom is finalZoom * factor clamped into [0.5, 2.5], so it always lies in that interval |
| `Overlay.RenderAtRest` | ARDrawing/ARDrawing/DetailView.swift:84-89 | with no gesture in progress the view shows exactly the committed offset, zoom and angle at opacity 0.4 |
| `Overlay.DragReleaseContinuous` | ARDrawing/ARDrawing/DetailView.swift:88-101 | during a drag the offset shown is the unclamped position plus translation; after release the offset shown is the same exactly when that sum lies within the drag bounds |
| `Overlay.PinchReleaseContinuous` | ARDrawing/ARDrawing/DetailView.swift:86-109 | during a pinch the scale shown is the unclamped finalZoom * factor; after release the scale shown is the same exactly when that product lies in [0.5, 2.5] |
| `Overlay.CommitOrderDoesNotMatter` | ARDrawing/ARDrawing/DetailView.swift:97-109 | from any two equal states, a drag then a pinch and a pinch then a drag commit the same position, zoom and angle |
| `Overlay.DetailViewState.constructor` | ARDrawing/ARDrawing/DetailView.swift:17-23 | the initial state is position (0,0), zoom 1 and angle 0, and it satisfies the bounds invariant |
| `Overlay.DetailViewState.OnDragEnded` | ARDrawing/ARDrawing/DetailView.swift:97-101 | the drag commit sets the position to the clamped sum and leaves zoom and angle unchanged |
| `Overlay.DetailViewState.OnMagnificationEnded` | ARDrawing/ARDrawing/DetailView.swift:107-109 | the pinch commit sets the zoom to the clamped product and leaves position and angle unchanged |
| `Overlay.DetailViewState.OnRotationEnded` | ARDrawing/ARDrawing/DetailView.swift:116-117 | the rotation commit adds the delta to the angle with no clamp and leaves position and zoom unchanged |
| `Categories.Strings` | ARDrawing/ARDrawing/CategoriesHomeView.swift:75 | the cast to an array of strings succeeds exactly when every element is a string, and then it returns those strings in order |
| `Categories.PreviewOf` | ARDrawing/ARDrawing/CategoriesHomeView.swift:71-86 | a document gives a preview exactly when name, order, isActive and images have the right types, isActive is true and images is non-empty; the preview has the document's ID, name and order, imageCount = number of images, and the first image as previewImage |
| `Categories.CompactMapKeepsOrder` | ARDrawing/ARDrawing/CategoriesHomeView.swift:70-87 | compactMap gives an order-preserving subsequence of its input, no longer than the input; element k of the output comes from the k-th element that has a result; an element is used exactly when it has one |
| `Categories.PreviewsEmpty` | ARDrawing/ARDrawing/CategoriesHomeView.swift:70-91 | the listing is empty exactly when no document yields a preview |
| `Categories.Started` | ARDrawing/ARDrawing/CategoriesHomeView.swift:51-52 | starting a fetch sets isLoading, clears errorMessage and keeps the current listing |
| `Categories.Completed` | ARDrawing/ARDrawing/CategoriesHomeView.swift:58-91 | the completion handler always clears isLoading; a transport error sets errorMessage to its description, and a missing snapshot sets it to "No active categories found", both keeping the old listing; documents replace the listing with their previews, and an empty listing sets "No active categories available at the moment" |
| `Categories.FetchCycle` | ARDrawing/ARDrawing/CategoriesHomeView.swift:51-91 | after a whole fetch, no error is shown exactly when the query returned at least one usable document; every listed category is then active and has at least one image |
| `Categories.CategoryService.constructor` | ARDrawing/ARDrawing/CategoriesHomeView.swift:44-46 | a new service has an empty listing, is not loading and has no error message |
| `Categories.CategoryService.FetchCategories` | ARDrawing/ARDrawing/CategoriesHomeView.swift:50-52 | the service's state becomes Started of its old state |
| `Categories.CategoryService.CompleteFetch` | ARDrawing/ARDrawing/CategoriesHomeView.swift:56-91 | the service's state becomes Completed of its old state and the query result |
| `Categories.CategoryDetail` | ARDrawing/ARDrawing/CategoriesHomeView.swift:96-121 | the detail is nil for a transport error, a missing document, an ill-typed document or an inactive one; otherwise its id is the requested one and its images list is exactly as stored, possibly empty |
| `Categories.DetailAcceptsListed` | ARDrawing/ARDrawing/CategoriesHomeView.swift:104-121 | every listed document is also accepted by the detail fetch, with the same id, image count and first image; the detail fetch accepts the listing's rejects exactly when they are active and well typed with an empty image list |

## Left out

- CoreGraphics drawing is modelled only as `Drawn`: the decoded samples are copied into the zero-filled buffer. The premultiplied-alpha conversion of the input and output contexts is not modelled, and `makeImage` is taken to return the buffer as it is. CoreGraphics is foreign code and cannot be seen.
- Matte.RemovingWhiteBackground: the image's orientation and scale are not modelled. The filter starts from the backing bitmap, which carries neither. It builds its result with `UIImage(cgImage:)`, which always has scale 1 and orientation up. So an input with any other orientation (as camera photos usually have) comes back rotated, and an input with scale 2 comes back at twice its point size. The model's `CGImage` and `Image` have no such fields, so this loss is not represented.
- Matte.RemovingWhiteBackground: whether CoreGraphics can create the input context and the output image is a pair of boolean parameters. The conditions under which it fails are not modelled.
- Floating point: `CGFloat` and `Angle` are exact `real` numbers, and angles are in radians. IEEE rounding, NaN and infinities are not modelled. A NaN translation or pinch factor has no counterpart.
- Gesture recognition (`SimultaneousGesture`, `@GestureState` updates) is not modelled. The in-progress values are a parameter of `Render`, and the commits are the arguments of the `onEnded` methods.
- SwiftUI layout, the hint timer, image loading from a URL, and `CameraView` are view and network plumbing.
- The Firestore queries, `DispatchQueue` hops and `[weak self]` capture are not modelled. The query's outcome is a parameter (`FetchResult`, `DetailResult`); the `order(by: "order")` query is done by the server. The model takes the documents in the order the query returned them, and does not model that the result is sorted by `order`. It also does not model that the server leaves out documents with no `order` field.
- Categories.PreviewOf: the casts `as? String`, `as? Int`, `as? Bool` and `as? [String]` are modelled as exact type-tag matches. Foundation's `NSNumber` bridging (a stored Bool read as an Int, or the reverse) is not modelled.
- `fetchCategoryDetail` hands its result to a completion callback and logs errors with `print`. The model returns the value and drops the log.
- Lock, reset, adjustable opacity, mode-dependent defaults and brightness control are not in this code, so they are not modelled. `TracingMode` is passed through without affecting any logic here.
- `ImageListView.swift`, `SplashView.swift`, `CameraPicker.swift`, `CategoryDetailView.swift`, `Button+.swift` and `ARDrawingApp.swift` are not part of this model. They are view and platform plumbing.
