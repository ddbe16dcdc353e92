# Recipe API core, modelled in Dafny

This project models the small core of a Django recipe API: users who
register with an email address, and their personal tags, ingredients and
recipes. The model has two parts.

- **Users and image paths** (`app/core/models.py`).
  - `recipe_image_file_path` builds the storage path of an uploaded recipe
    image. It keeps only the original file's extension, the text after its
    last `.`, and names the file after a generated UUID:
    `uploads/recipe/<uuid>.<ext>`.
  - `UserManager.create_user` refuses a missing or empty email and
    lower-cases the domain part of the address. It saves a row with the
    field defaults (active, not staff). `create_superuser` then raises the
    staff and superuser flags. The email column is unique.
- **Owner-scoped views** (`app/recipe/views.py`).
  - The tag and ingredient view set lists only the caller's rows, ordered
    by name descending, and stamps the caller as owner of each row it
    creates.
  - The recipe view set lists and retrieves only the caller's recipes,
    stamps the caller as owner on create, and uses the detail serializer
    for the `retrieve` action only.

Files:

- `wrappers.dfy`: `Option` and `Result`.
- `py_str.dfy` (module `PyStr`): the Python string operations the code
  relies on (`split`, `join`, last-occurrence search, ASCII `lower`).
- `image_path.dfy` (module `ImagePath`): `recipe_image_file_path`, with
  `os.path.join` in its POSIX form.
- `user_manager.dfy` (module `UserManager`): `normalize_email`, the user
  row and the `UserStore` class with `CreateUser` and `CreateSuperuser`.
- `names.dfy` (module `Names`): the order names are sorted in.
- `recipe_views.dfy` (module `RecipeViews`): the owner filter, the
  descending sort, the tag/ingredient and recipe querysets, the
  `OwnedItemStore` and `RecipeStore` classes, and serializer selection.

The generated UUID is a parameter (`id`). The authenticated caller is a
parameter (`caller`) of every view operation. A saved table is a class
holding a sequence of rows and the next primary key. Creating a row
appends to that sequence.

Two places where the code is followed, not the documented intent:

- A file name with no `.` is not rejected. Python's `split('.')[-1]`
  returns the whole name, so the whole name becomes the extension.
- The tag and ingredient tests also use an `assigned_only` query flag that
  should keep only rows used by some recipe, once each. The view code
  (app/recipe/views.py:16-18) has no such filter, so the model has none.

## Model

| member | source | states |
|---|---|---|
| `PyStr.Split` | app/core/models.py:12 | `split('.')` gives at least one piece, no piece contains the separator, and joining the pieces gives the name back |
| `PyStr.SplitJoin` | app/core/models.py:12 | the other direction: splitting a join of separator-free pieces gives exactly those pieces |
| `ImagePath.Extension` | app/core/models.py:12 | the extracted extension never contains a `.` |
| `ImagePath.ExtensionIsAfterLastDot` | app/core/models.py:12 | the extension is exactly the text after the last `.`; a name with no `.` is its own extension |
| `ImagePath.ExtensionOfDotted` | app/core/models.py:12 | for `base.ext`, where `ext` has no `.`, the extension is `ext` whatever the base name is |
| `ImagePath.RecipeImageFilePathShape` | app/core/models.py:13-15 | for an id that is not an absolute path, the path is `uploads/recipe/` + id + `.` + extension |
| `ImagePath.RecipeImageFilePathOfDotted` | app/core/models.py:12-15 | a file `base.ext` is stored at `uploads/recipe/<id>.<ext>` |
| `ImagePath.RecipeImageFilePathIgnoresBaseName` | app/core/models.py:12-15 | two uploads with the same extension and different base names get the same path for the same id |
| `ImagePath.ParseRecipeImageFilePath` | app/core/models.py:12-15 | the generated id and the extension can be read back from the path alone, for every id, including the absolute-path case of `os.path.join` |
| `ImagePath.RecipeImageFilePathUnique` | app/core/models.py:12-15 | two uploads get the same path only if they got the same id and their files have the same extension |
| `ImagePath.RecipeImageFilePathInjective` | app/core/models.py:13-15 | different ids never give the same path, whatever files the two uploads carry |
| `ImagePath.RecipeImageFilePathExample` | app/core/tests/test_models.py:83-94 | id `test-uuid` with `myimage.jpg` gives `uploads/recipe/test-uuid.jpg` |
| `UserManager.NormalizeEmail` | app/core/models.py:35 | the stored address has the same length; everything up to and including the last `@` is kept; the domain after it is lower-cased; an address without `@` is unchanged |
| `UserManager.NormalizeEmailKeepsSeparator` | app/core/models.py:35 | normalising does not move the `@` that separates local part and domain |
| `UserManager.NormalizeEmailIdempotent` | app/core/models.py:35 | a normalised address is its own normal form |
| `UserManager.NormalizeEmailIgnoresDomainCase` | app/core/models.py:35 | addresses that differ only in the case of the domain are stored alike, as local part + `@` + lower-cased domain |
| `UserManager.NormalizeEmailExample` | app/core/tests/test_models.py:27-34 | `test@TEST.COM` is stored as `test@test.com` |
| `UserManager.UserStore.CreateUser` | app/core/models.py:26-40 | a missing or empty email fails with the store unchanged; an address already registered after normalising fails with the store unchanged; otherwise exactly one row is appended, with the normalised email, the given name and password, active, not staff, not superuser; emails stay unique |
| `UserManager.UserStore.CreateSuperuser` | app/core/models.py:42-51 | the same failures as `CreateUser`; on success exactly one row is appended, with the normalised email, the given password (an unusable one for `None`), staff and superuser set; emails stay unique |
| `RecipeViews.OwnedBy` | app/recipe/views.py:18 | `filter(user=caller)`: a row is in the result exactly when it is stored and owned by the caller |
| `RecipeViews.OwnedByMultiplicity` | app/recipe/views.py:18 | the filter keeps every stored copy of a caller-owned row and no copy of any other row |
| `RecipeViews.OwnedByConcat` | app/recipe/views.py:18 | filtering the rows of two tables in a row is filtering each and concatenating |
| `RecipeViews.SortByNameDesc` | app/recipe/views.py:18 | `order_by('-name')`: every name is at or before the one above it, and the result is a permutation of the input |
| `RecipeViews.SortedByNameDescPairwise` | app/recipe/views.py:18 | in a descending listing, every later name sorts at or before every earlier one |
| `RecipeViews.ItemQueryset` | app/recipe/views.py:16-18 | the tag/ingredient listing holds a row exactly when it is stored and owned by the caller; it is a permutation of the caller-owned rows, sorted by name descending |
| `RecipeViews.ItemQuerysetMultiplicity` | app/recipe/views.py:16-18 | the listing holds each caller-owned row as often as it is stored, and no other row |
| `RecipeViews.ItemQuerysetIgnoresOthers` | app/recipe/views.py:16-18 | rows of other users, whatever their names and wherever they are stored, do not change the caller's listing |
| `RecipeViews.ItemQuerysetLimitedToUser` | app/recipe/tests/test_tags_api.py:51-69 | with another user's row stored first and the caller's own second, the caller's listing is exactly the own row |
| `RecipeViews.ItemQuerysetAfterAppend` | app/recipe/views.py:20-22 | a row created for the caller appears in the caller's listing exactly once more |
| `RecipeViews.ValidateName` | app/core/models.py:70 | a tag or ingredient name is refused as blank exactly when it is empty, as too long exactly when it exceeds 255 characters, and accepted otherwise |
| `RecipeViews.OwnedItemStore.List` | app/recipe/views.py:16-18 | the `list` action returns the queryset of the stored rows for the caller |
| `RecipeViews.OwnedItemStore.Create` | app/recipe/views.py:20-22 | an invalid name is refused and nothing is saved; a valid name appends exactly one row, with that name, owned by the caller; ids keep increasing |
| `RecipeViews.RecipeQueryset` | app/recipe/views.py:44-46 | the recipe listing holds a recipe exactly when it is stored and owned by the caller |
| `RecipeViews.RecipeQuerysetAfterCreate` | app/recipe/views.py:63-65 | a new recipe joins its owner's listing, once, and no one else's; in the model's stored order it comes last |
| `RecipeViews.RetrieveRecipe` | app/recipe/views.py:44-46 | retrieval finds a recipe only if it has the id and is owned by the caller; it answers not-found exactly when no such recipe is stored |
| `RecipeViews.RetrieveOthersRecipeNotFound` | app/recipe/views.py:44-46 | with unique ids, another user's recipe is not found, the same answer as for an id that does not exist |
| `RecipeViews.RetrieveCreatedRecipe` | app/recipe/views.py:63-65 | a freshly created recipe reads back in full for its owner, tag and ingredient sets included |
| `RecipeViews.GetSerializerClass` | app/recipe/views.py:56-61 | the detail serializer is chosen exactly for the `retrieve` action, the plain recipe serializer for every other action |
| `RecipeViews.RecipeStore.List` | app/recipe/views.py:44-46 | the `list` action returns the caller's recipes |
| `RecipeViews.RecipeStore.Retrieve` | app/recipe/views.py:44-46 | the `retrieve` action answers as `RetrieveRecipe` on the stored recipes; another user's recipe gives not-found, since the store keeps ids unique |
| `RecipeViews.RecipeStore.Create` | app/recipe/views.py:63-65 | exactly one recipe is appended, with the posted fields, the caller as owner and no image; ids keep increasing |

## Left out

- Password hashing and checking (`set_password`, `check_password`). `Hashed(p)` stands for the hash of `p`.
- UUID generation. The id is a parameter.
- The `instance` argument of `recipe_image_file_path`. The function never reads it.
- `NormalizeEmail`: does not model the `strip()` of surrounding whitespace in Django's `normalize_email`. Lower-casing covers ASCII letters only, not Unicode case mapping.
- `CreateUser`: takes only `name` among the `**extra_fields`. Other fields passed that way are not modelled.
- `CreateUser`: the email `max_length=255` is not checked. `create_user` does no field validation, and what the database does with a longer value is not part of this model.
- The `assigned_only` filter exercised by the tag and ingredient tests. The view code has no such filter.
- `ValidateName`: does not model the whitespace trimming that the REST framework's character field applies before the blank check, so a name of spaces only counts as non-blank here. app/recipe/serializers.py is not part of this model.
- `OwnedItemStore.Create`: does not model the whitespace trimming that the REST framework's character field applies before the blank check. app/recipe/serializers.py is not part of this model.
- `RecipeStore.Create`: does no validation of the posted fields. The recipe serializers are not part of this model.
- The detail serializer's expanded tag and ingredient representation. Only which serializer is chosen is modelled.
- `RecipeQueryset`: keeps the recipes in stored order. `get_queryset` has no `order_by` and `Recipe` has no default ordering, so the database's order is unspecified; stored order stands in for it, and `RecipeQuerysetAfterCreate` placing a new recipe last is a fact about the model only.
- `SortByNameDesc`: the database's collation is not modelled. Names are compared by character code, and the order among equal names is one fixed choice where the database leaves it open.
- The update, partial update and destroy actions that the framework's model view set supplies. app/recipe/views.py does not override them, and the framework's code is not part of this model.
- The recipe image upload action. app/recipe/views.py defines no such action.
- Token authentication, permissions, HTTP routing and status codes. These are framework plumbing.
- `DecimalField` digit limits, `ImageField` storage, and cascade deletion through foreign keys. These are ORM and storage behaviour.
- The `wait_for_db` management command and the admin pages. Their code is not part of this model.
- Concurrency. Each request is treated as one atomic step on the store.
