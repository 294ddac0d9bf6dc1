/**
 * The path helpers of ImageUploaderServiceImpl. The working directory (Java's
 * "user.dir") is a parameter; Path.of(directory, name) with a directory ending in '/' is
 * the directory followed by the name, and a path under the working directory is already
 * absolute, so getAbsolutePath leaves it as it is.
 */
module ImageUploader {

  import opened Wrappers
  import opened Text
  import opened JavaInt
  import opened Models

  function ImageDirectory(userDir: string): string {
    userDir + "/app_data/images/"
  }

  function SampleBannerImageDirectory(userDir: string): string {
    userDir + "/app_data/default-banner-images/"
  }

  function SampleProfileImageDirectory(userDir: string): string {
    userDir + "/app_data/default-profile-images/"
  }

  /** The banner's file name: the id's Java remainder by 7, then ".jpg". */
  function SampleBannerFileName(id: int): (name: string)
    requires IsInt32(id)
    ensures EndsWith(name, ".jpg")
    ensures ParseInt(name[..|name| - 4]) == Some(Rem(id, 7))
  {
    var digits := IntToString(Rem(id, 7));
    IntToStringRoundTrip(Rem(id, 7));
    var name := digits + ".jpg";
    assert name[..|name| - 4] == digits;
    assert name[|name| - 4..] == ".jpg";
    name
  }

  /** The seven sample banners, one per remainder 0 to 6. */
  const SampleBanners: seq<string> := ["0.jpg", "1.jpg", "2.jpg", "3.jpg", "4.jpg", "5.jpg", "6.jpg"]

  /** getSampleBannerImageFile: the banner file under the sample-banner directory. */
  function SampleBannerImageFile(userDir: string, id: int): string
    requires IsInt32(id)
  {
    SampleBannerImageDirectory(userDir) + SampleBannerFileName(id)
  }

  /** A non-negative id picks the banner of its remainder by 7, one of the seven files. */
  lemma BannerOfNonNegativeId(id: int)
    requires 0 <= id <= MaxInt
    ensures SampleBannerFileName(id) == SampleBanners[id % 7]
    ensures SampleBannerFileName(id) in SampleBanners
  {
    var k := id % 7;
    assert Rem(id, 7) == k;
    assert IntToString(k) == [DigitChar(k)];
    if k == 0 { assert [DigitChar(k)] == "0"; }
    else if k == 1 { assert [DigitChar(k)] == "1"; }
    else if k == 2 { assert [DigitChar(k)] == "2"; }
    else if k == 3 { assert [DigitChar(k)] == "3"; }
    else if k == 4 { assert [DigitChar(k)] == "4"; }
    else if k == 5 { assert [DigitChar(k)] == "5"; }
    else { assert [DigitChar(k)] == "6"; }
  }

  /** Non-negative ids congruent modulo 7 share a banner. */
  lemma CongruentIdsShareBanner(userDir: string, a: int, b: int)
    requires 0 <= a <= MaxInt && 0 <= b <= MaxInt
    requires a % 7 == b % 7
    ensures SampleBannerImageFile(userDir, a) == SampleBannerImageFile(userDir, b)
  {
  }

  /** A negative id keeps its sign in Java's remainder, naming a file that does not exist. */
  lemma NegativeIdBanner()
    ensures SampleBannerFileName(-8) == "-1.jpg"
    ensures SampleBannerFileName(-8) !in SampleBanners
  {
    assert Rem(-8, 7) == -1;
    assert IntToString(-1) == "-" + [DigitChar(1)];
  }

  /** getDefaultProfileImageFile: always 1.png under the default-profile directory. */
  function DefaultProfileImageFile(userDir: string): (path: string)
    ensures EndsWith(path, "/app_data/default-profile-images/1.png")
    ensures StartsWith(path, userDir)
  {
    var path := SampleProfileImageDirectory(userDir) + "1.png";
    assert path == userDir + "/app_data/default-profile-images/1.png";
    path
  }

  /** getFullProtocolPath(File): "file:///" before the absolute path. */
  function FullProtocolPath(absolutePath: string): (url: string)
    ensures StartsWith(url, "file:///") && url[8..] == absolutePath
  {
    var url := "file:///" + absolutePath;
    assert url[..8] == "file:///";
    url
  }

  /** getImageFile: the image's file name under the images directory. */
  function ImageFile(userDir: string, image: Image): (path: string)
    ensures StartsWith(path, ImageDirectory(userDir)) && path[|ImageDirectory(userDir)|..] == image.fileName
  {
    var path := ImageDirectory(userDir) + image.fileName;
    assert path[..|ImageDirectory(userDir)|] == ImageDirectory(userDir);
    path
  }

  /** getFullProtocolPath(Image): the protocol path of the image's file. */
  function ImageProtocolPath(userDir: string, image: Image): string {
    FullProtocolPath(ImageFile(userDir, image))
  }

  /** The image's file name can be read back from its protocol path. */
  lemma ProtocolPathNamesImage(userDir: string, image: Image)
    ensures var url := ImageProtocolPath(userDir, image);
            url[8 + |ImageDirectory(userDir)|..] == image.fileName
  {
    var file := ImageFile(userDir, image);
    var url := FullProtocolPath(file);
    assert url[8..] == file;
    assert url[8 + |ImageDirectory(userDir)|..] == file[|ImageDirectory(userDir)|..];
  }

  /** An absolute working directory starts with '/', so the URL has four slashes after "file:". */
  lemma AbsolutePathGivesFourSlashes(userDir: string, image: Image)
    requires StartsWith(userDir, "/")
    ensures StartsWith(ImageProtocolPath(userDir, image), "file:////")
  {
    var file := ImageFile(userDir, image);
    var url := FullProtocolPath(file);
    assert file[0] == userDir[0] == '/';
    assert url[..9] == url[..8] + [url[8]];
  }
}
