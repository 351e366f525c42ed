/** The image library dialog: a list of images with a category each, the
    category choices offered, the images shown for a search term and a
    chosen category, and the image added when the user uploads a file. The
    object URL the browser creates for an uploaded file is an input. */
module ImageLibrary {
  import opened Wrappers
  import opened JsString

  datatype Image = Image(key: string, url: string, name: string, category: string)

  const AllCategories: string := "all"
  const CustomCategory: string := "Custom"

  const DefaultImages: seq<Image> := [
    Image("discord", "./assets/images/discord.png", "Discord", "Apps"),
    Image("game", "./assets/images/game.png", "Game", "Games"),
    Image("music", "./assets/images/music.png", "Music", "Media")]

  // ---------------------------------------------------------------------------
  // Categories

  /** Position of the first occurrence of `x` in `s`. */
  function FirstIndex(s: seq<string>, x: string): (i: nat)
    requires x in s
    ensures i < |s| && s[i] == x && forall j :: 0 <= j < i ==> s[j] != x
  {
    if s[0] == x then 0 else 1 + FirstIndex(s[1..], x)
  }

  /** `[...new Set(s)]`: the distinct values of `s` in the order they first
      occur. */
  function Distinct(s: seq<string>): (r: seq<string>)
    ensures forall x :: x in r <==> x in s
    ensures forall i, j :: 0 <= i < j < |r| ==> r[i] != r[j]
  {
    if |s| == 0 then []
    else
      var d := Distinct(s[..|s| - 1]);
      assert forall x :: x in s <==> x in s[..|s| - 1] || x == s[|s| - 1] by {
        assert s == s[..|s| - 1] + [s[|s| - 1]];
      }
      if s[|s| - 1] in d then d else d + [s[|s| - 1]]
  }

  lemma {:induction false} FirstIndexOfPrefix(s: seq<string>, x: string, y: string)
    requires y in s
    ensures FirstIndex(s + [x], y) == FirstIndex(s, y)
  {
    if s[0] != y {
      assert (s + [x])[1..] == s[1..] + [x];
      FirstIndexOfPrefix(s[1..], x, y);
    }
  }

  /** Appending a value keeps the first occurrences of the values already
      present, and a new value comes after all of them. */
  lemma OrderAfterAppend(p: seq<string>, x: string, d: seq<string>)
    requires forall y :: y in d ==> y in p
    requires forall i, j :: 0 <= i < j < |d| ==> FirstIndex(p, d[i]) < FirstIndex(p, d[j])
    ensures forall i, j :: 0 <= i < j < |d| ==> FirstIndex(p + [x], d[i]) < FirstIndex(p + [x], d[j])
    ensures x !in p ==> forall i :: 0 <= i < |d| ==> FirstIndex(p + [x], d[i]) < FirstIndex(p + [x], x)
  {
    forall i | 0 <= i < |d| ensures FirstIndex(p + [x], d[i]) == FirstIndex(p, d[i]) < |p| {
      assert d[i] in d;
      FirstIndexOfPrefix(p, x, d[i]);
    }
    if x !in p {
      assert (p + [x])[|p|] == x;
    }
  }

  /** The distinct values come in the order of their first occurrences. */
  lemma {:induction false} DistinctInFirstOccurrenceOrder(s: seq<string>)
    ensures forall i, j :: 0 <= i < j < |Distinct(s)| ==>
      FirstIndex(s, Distinct(s)[i]) < FirstIndex(s, Distinct(s)[j])
  {
    if |s| > 0 {
      var p := s[..|s| - 1];
      var x := s[|s| - 1];
      assert s == p + [x];
      DistinctInFirstOccurrenceOrder(p);
      var d := Distinct(p);
      assert forall i, j :: 0 <= i < j < |d| ==> FirstIndex(p, d[i]) < FirstIndex(p, d[j]);
      OrderAfterAppend(p, x, d);
      if x !in d {
        assert Distinct(s) == d + [x];
        OrderWithNewLast(p + [x], d, x);
      } else {
        assert Distinct(s) == d;
      }
    }
  }

  /** A value placed after values whose first occurrences are in order, and
      that occurs first after all of them, keeps the order. */
  lemma OrderWithNewLast(s: seq<string>, d: seq<string>, x: string)
    requires x in s && forall y :: y in d ==> y in s
    requires forall i, j :: 0 <= i < j < |d| ==> FirstIndex(s, d[i]) < FirstIndex(s, d[j])
    requires forall i :: 0 <= i < |d| ==> FirstIndex(s, d[i]) < FirstIndex(s, x)
    ensures forall i, j :: 0 <= i < j < |d + [x]| ==> FirstIndex(s, (d + [x])[i]) < FirstIndex(s, (d + [x])[j])
  {
    var r := d + [x];
    forall i, j | 0 <= i < j < |r| ensures FirstIndex(s, r[i]) < FirstIndex(s, r[j]) {
      assert r[i] == d[i];
      if j < |d| {
        assert r[j] == d[j];
      } else {
        assert r[j] == x;
      }
    }
  }

  /** `['all', ...new Set(images.map(img => img.category))]` */
  function Categories(images: seq<Image>): (cs: seq<string>)
    ensures |cs| >= 1 && cs[0] == AllCategories
    ensures forall k :: 0 <= k < |images| ==> images[k].category in cs[1..]
  {
    [AllCategories] + Distinct(CategoryList(images))
  }

  function CategoryList(images: seq<Image>): (cs: seq<string>)
    ensures |cs| == |images| && forall k :: 0 <= k < |images| ==> cs[k] == images[k].category
  {
    seq(|images|, k requires 0 <= k < |images| => images[k].category)
  }

  /** `'all'` first, then each category of the images once, in order of
      first appearance. */
  lemma CategoriesShape(images: seq<Image>)
    ensures var cs := Categories(images);
      && cs[0] == AllCategories
      && (forall c :: c in cs[1..] <==> exists k :: 0 <= k < |images| && images[k].category == c)
      && (forall i, j :: 1 <= i < j < |cs| ==> cs[i] != cs[j])
      && (forall i, j :: 1 <= i < j < |cs| ==>
            FirstIndex(CategoryList(images), cs[i]) < FirstIndex(CategoryList(images), cs[j]))
  {
    var cl := CategoryList(images);
    var cs := Categories(images);
    var d := Distinct(cl);
    assert cs == [AllCategories] + d;
    assert cs[1..] == d;
    assert forall i :: 1 <= i < |cs| ==> cs[i] == d[i - 1];
    DistinctInFirstOccurrenceOrder(cl);
    forall c | c in d ensures exists k :: 0 <= k < |images| && images[k].category == c {
      var k := FirstIndex(cl, c);
      assert images[k].category == c;
    }
    forall c | exists k :: 0 <= k < |images| && images[k].category == c ensures c in d {
      var k :| 0 <= k < |images| && images[k].category == c;
      assert cl[k] == c;
    }
  }

  /** A list without repeated values is its own set of distinct values. */
  lemma {:induction false} DistinctOfDistinct(s: seq<string>)
    requires forall i, j :: 0 <= i < j < |s| ==> s[i] != s[j]
    ensures Distinct(s) == s
  {
    if |s| > 0 {
      var p := s[..|s| - 1];
      DistinctOfDistinct(p);
      assert s[|s| - 1] !in p by {
        forall k | 0 <= k < |p| ensures p[k] != s[|s| - 1] {
          assert p[k] == s[k];
        }
      }
      assert s == p + [s[|s| - 1]];
    }
  }

  /** The default library offers `all`, `Apps`, `Games` and `Media`. */
  lemma DefaultCategories()
    ensures Categories(DefaultImages) == ["all", "Apps", "Games", "Media"]
  {
    var cl := CategoryList(DefaultImages);
    assert cl == ["Apps", "Games", "Media"];
    DistinctOfDistinct(cl);
    assert Categories(DefaultImages) == [AllCategories] + cl;
  }

  // ---------------------------------------------------------------------------
  // Filtering

  /** The search matches the name ignoring case, and the category is `all`
      or the image's own. */
  predicate Shown(img: Image, searchTerm: string, selectedCategory: string)
    ensures Shown(img, searchTerm, selectedCategory) ==> |searchTerm| <= |img.name|
    ensures selectedCategory != AllCategories && img.category != selectedCategory ==>
      !Shown(img, searchTerm, selectedCategory)
  {
    Contains(ToLower(img.name), ToLower(searchTerm))
    && (selectedCategory == AllCategories || img.category == selectedCategory)
  }

  /** `filteredImages` */
  function FilteredImages(images: seq<Image>, searchTerm: string, selectedCategory: string): (r: seq<Image>)
    ensures |r| <= |images|
  {
    if |images| == 0 then []
    else if Shown(images[0], searchTerm, selectedCategory) then
      [images[0]] + FilteredImages(images[1..], searchTerm, selectedCategory)
    else FilteredImages(images[1..], searchTerm, selectedCategory)
  }

  /** An image is kept exactly when it is shown. */
  lemma {:induction false} FilteredImagesShown(images: seq<Image>, searchTerm: string, cat: string)
    ensures forall img :: img in FilteredImages(images, searchTerm, cat) <==> img in images && Shown(img, searchTerm, cat)
  {
    if |images| > 0 {
      var rest := FilteredImages(images[1..], searchTerm, cat);
      FilteredImagesShown(images[1..], searchTerm, cat);
      assert images == [images[0]] + images[1..];
      assert forall img :: img in images <==> img == images[0] || img in images[1..];
      if Shown(images[0], searchTerm, cat) {
        assert FilteredImages(images, searchTerm, cat) == [images[0]] + rest;
        assert forall img :: img in [images[0]] + rest <==> img == images[0] || img in rest;
      } else {
        assert FilteredImages(images, searchTerm, cat) == rest;
      }
    }
  }

  /** The filter keeps the order: it distributes over concatenation. */
  lemma {:induction false} FilteredImagesAppend(a: seq<Image>, b: seq<Image>, searchTerm: string, cat: string)
    ensures FilteredImages(a + b, searchTerm, cat) == FilteredImages(a, searchTerm, cat) + FilteredImages(b, searchTerm, cat)
  {
    if |a| == 0 {
      assert a + b == b;
    } else {
      assert (a + b)[0] == a[0];
      assert (a + b)[1..] == a[1..] + b;
      FilteredImagesAppend(a[1..], b, searchTerm, cat);
    }
  }

  /** With no search term and every category, all images are shown. */
  lemma {:induction false} EmptySearchShowsAll(images: seq<Image>)
    ensures FilteredImages(images, "", AllCategories) == images
  {
    if |images| > 0 {
      assert OccursAt(ToLower(images[0].name), "", 0);
      EmptySearchShowsAll(images[1..]);
      assert images == [images[0]] + images[1..];
    }
  }

  // ---------------------------------------------------------------------------
  // Uploading

  /** The longest prefix run of whitespace of `s`, dropped. */
  function DropWhitespace(s: string): (r: string)
    ensures |r| <= |s| && r == s[|s| - |r|..]
    ensures |r| > 0 ==> !IsWhitespace(r[0])
    ensures forall c :: c in r ==> c in s
  {
    if |s| > 0 && IsWhitespace(s[0]) then
      assert forall c :: c in s[1..] ==> c in s;
      DropWhitespace(s[1..])
    else s
  }

  /** `s.replace(/\s+/g, '-')`: every maximal run of whitespace becomes one
      `-`. */
  function DashWhitespace(s: string): (r: string)
    ensures forall k :: 0 <= k < |r| ==> !IsWhitespace(r[k])
    ensures (forall k :: 0 <= k < |s| ==> !IsWhitespace(s[k])) ==> r == s
    ensures forall c :: c in r ==> c == '-' || c in s
    decreases |s|
  {
    if |s| == 0 then ""
    else
      assert forall c :: c in s[1..] ==> c in s;
      if IsWhitespace(s[0]) then "-" + DashWhitespace(DropWhitespace(s[1..]))
      else [s[0]] + DashWhitespace(s[1..])
  }

  /** Dropping a run of whitespace from text that does not start with
      whitespace leaves that text. */
  lemma {:induction false} DropWhitespaceRun(w: string, y: string)
    requires forall k :: 0 <= k < |w| ==> IsWhitespace(w[k])
    requires |y| == 0 || !IsWhitespace(y[0])
    ensures DropWhitespace(w + y) == y
    decreases |w|
  {
    if |w| == 0 {
      assert w + y == y;
    } else {
      TailOfConcat(w, y);
      DropWhitespaceRun(w[1..], y);
    }
  }

  /** A run of whitespace between whitespace-free text and text that does
      not start with whitespace becomes exactly one `-`, in place. */
  lemma {:induction false} DashWhitespaceRun(x: string, w: string, y: string)
    requires forall k :: 0 <= k < |x| ==> !IsWhitespace(x[k])
    requires |w| > 0 && forall k :: 0 <= k < |w| ==> IsWhitespace(w[k])
    requires |y| == 0 || !IsWhitespace(y[0])
    ensures DashWhitespace(x + w + y) == x + "-" + DashWhitespace(y)
    decreases |x|
  {
    if |x| == 0 {
      HeadOfConcat(x, w, y);
      HeadOfConcat(x, "-", DashWhitespace(y));
      DashWhitespaceLead(w, y);
    } else {
      HeadOfConcat(x, w, y);
      HeadOfConcat(x, "-", DashWhitespace(y));
      DashWhitespaceCons(x[0], x[1..] + w + y);
      DashWhitespaceRun(x[1..], w, y);
    }
  }

  lemma HeadOfConcat(x: string, a: string, b: string)
    ensures |x| == 0 ==> x + a + b == a + b
    ensures |x| > 0 ==> x + a + b == [x[0]] + (x[1..] + a + b)
  {
    if |x| > 0 {
      assert x == [x[0]] + x[1..];
    }
  }

  /** A character other than whitespace is copied as it is. */
  lemma DashWhitespaceCons(c: char, t: string)
    requires !IsWhitespace(c)
    ensures DashWhitespace([c] + t) == [c] + DashWhitespace(t)
  {
    assert ([c] + t)[1..] == t;
  }

  /** A leading run of whitespace becomes one `-`. */
  lemma DashWhitespaceLead(w: string, y: string)
    requires |w| > 0 && forall k :: 0 <= k < |w| ==> IsWhitespace(w[k])
    requires |y| == 0 || !IsWhitespace(y[0])
    ensures DashWhitespace(w + y) == "-" + DashWhitespace(y)
  {
    TailOfConcat(w, y);
    DropWhitespaceRun(w[1..], y);
  }

  lemma TailOfConcat(w: string, y: string)
    requires |w| > 0
    ensures (w + y)[0] == w[0] && (w + y)[1..] == w[1..] + y
  {
  }

  /** The key of an uploaded file: its name lower-cased, with each run of
      whitespace replaced by `-`. */
  function UploadKey(fileName: string): (key: string)
    ensures forall k :: 0 <= k < |key| ==> !IsWhitespace(key[k])
    ensures (forall k :: 0 <= k < |fileName| ==> !IsWhitespace(fileName[k])) ==> key == ToLower(fileName)
  {
    DashWhitespace(ToLower(fileName))
  }

  /** A key holds no whitespace and no upper-case ASCII letter, and making a
      key from a key changes nothing. */
  lemma UploadKeyNormal(fileName: string)
    ensures var key := UploadKey(fileName);
      && (forall k :: 0 <= k < |key| ==> !IsWhitespace(key[k]) && !('A' <= key[k] <= 'Z'))
      && UploadKey(key) == key
  {
    var lower := ToLower(fileName);
    var key := DashWhitespace(lower);
    forall k | 0 <= k < |key| ensures !('A' <= key[k] <= 'Z') {
      if key[k] != '-' {
        assert key[k] in key;
        assert key[k] in lower;
        var j :| 0 <= j < |lower| && lower[j] == key[k];
      }
    }
    assert ToLower(key) == key;
  }

  /** `name.replace(/\.[^/.]+$/, '')`: remove a final extension, that is a
      last `.` followed by at least one character and no `/`. */
  function UploadName(fileName: string): (name: string)
    ensures |name| <= |fileName| && name == fileName[..|name|]
    ensures name != fileName ==>
      |name| < |fileName| - 1 && fileName[|name|] == '.' && '.' !in fileName[|name| + 1..]
      && '/' !in fileName[|name| + 1..]
  {
    var k := LastIndexOf(fileName, '.');
    if 0 <= k < |fileName| - 1 && '/' !in fileName[k + 1..] then fileName[..k] else fileName
  }

  /** The name of `base.ext` is `base` for any extension without `.` or `/`,
      and a name without a dot is kept whole. */
  lemma UploadNameStripsExtension(base: string, ext: string)
    requires ext != "" && '.' !in ext && '/' !in ext
    ensures UploadName(base + "." + ext) == base
    ensures '.' !in base ==> UploadName(base) == base
  {
    var s := base + "." + ext;
    var k := LastIndexOf(s, '.');
    assert s[|base|] == '.';
    assert s[k + 1..] == ext;
    assert s[..k] == base;
  }

  datatype File = File(name: string)

  /** `handleImageUpload`: nothing without a chosen file; otherwise append
      the image made from the file, in the `Custom` category, with the
      object URL the browser gave for it. */
  function Upload(images: seq<Image>, file: Option<File>, objectUrl: string): (r: seq<Image>)
    ensures file.None? ==> r == images
    ensures file.Some? ==>
      r == images + [Image(UploadKey(file.value.name), objectUrl, UploadName(file.value.name), CustomCategory)]
  {
    match file
    case None => images
    case Some(f) => images + [Image(UploadKey(f.name), objectUrl, UploadName(f.name), CustomCategory)]
  }

  /** After an upload, `Custom` is among the categories, and the new image
      is shown under it with an empty search. */
  lemma UploadShownAsCustom(images: seq<Image>, f: File, objectUrl: string)
    ensures var r := Upload(images, Some(f), objectUrl);
      && CustomCategory in Categories(r)
      && r[|r| - 1] in FilteredImages(r, "", CustomCategory)
  {
    var r := Upload(images, Some(f), objectUrl);
    CategoriesShape(r);
    assert r[|r| - 1].category == CustomCategory;
    assert OccursAt(ToLower(r[|r| - 1].name), "", 0);
    assert Categories(r)[1..] == Distinct(CategoryList(r));
    FilteredImagesShown(r, "", CustomCategory);
    assert r[|r| - 1] in r;
  }
}
