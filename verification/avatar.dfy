/**
 * `getAvatarUrl`, shared verbatim by the character card, the user profile
 * card and the chat page: the avatar address to show, built from a record's
 * `avatar_url` and `avatar_image` fields, or none (the placeholder letter is
 * shown instead).
 */
module Avatar {
  import opened Wrappers
  import opened Strings

  /** The backend the client talks to. */
  const ApiBaseUrl: string := "http://127.0.0.1:5000"

  /**
   * A truthy `avatar_url` wins; an address starting with "http" is kept as it
   * is, any other is appended to the base with no separator.  Otherwise a
   * truthy `avatar_image` is used the same way, except that a "/" is put
   * between the base and an image path that does not start with one.  With
   * neither field truthy there is no address.
   */
  function GetAvatarUrl(avatarUrl: Option<string>, avatarImage: Option<string>): (r: Option<string>)
    ensures r.None? <==> !Truthy(avatarUrl) && !Truthy(avatarImage)
    ensures r.Some? ==> StartsWith(r.value, "http")
    ensures Truthy(avatarUrl) ==> EndsWith(r.value, avatarUrl.value)
    ensures !Truthy(avatarUrl) && Truthy(avatarImage) ==> EndsWith(r.value, avatarImage.value)
    ensures !Truthy(avatarUrl) && Truthy(avatarImage) && StartsWith(avatarImage.value, "http") ==> r == avatarImage
  {
    if Truthy(avatarUrl) then
      var url := avatarUrl.value;
      Some(if StartsWith(url, "http") then url else ApiBaseUrl + url)
    else if Truthy(avatarImage) then
      var image := avatarImage.value;
      Some(if StartsWith(image, "http") then image
           else ApiBaseUrl + (if StartsWith(image, "/") then "" else "/") + image)
    else None
  }

  /** A truthy `avatar_url` decides the result on its own: `avatar_image` is not looked at. */
  lemma AvatarUrlTakesPrecedence(avatarUrl: string, image1: Option<string>, image2: Option<string>)
    requires avatarUrl != ""
    ensures GetAvatarUrl(Some(avatarUrl), image1) == GetAvatarUrl(Some(avatarUrl), image2)
    ensures StartsWith(avatarUrl, "http") ==> GetAvatarUrl(Some(avatarUrl), image1) == Some(avatarUrl)
  {
  }

  /** A relative `avatar_url` is the base followed directly by the path, with no "/" added. */
  lemma RelativeAvatarUrl(avatarUrl: string, image: Option<string>)
    requires avatarUrl != "" && !StartsWith(avatarUrl, "http")
    ensures var r := GetAvatarUrl(Some(avatarUrl), image).value;
      |r| == |ApiBaseUrl| + |avatarUrl| && r[..|ApiBaseUrl|] == ApiBaseUrl && r[|ApiBaseUrl|..] == avatarUrl
  {
    var r := ApiBaseUrl + avatarUrl;
    assert r[..|ApiBaseUrl|] == ApiBaseUrl;
    assert r[|ApiBaseUrl|..] == avatarUrl;
  }

  /**
   * Without a truthy `avatar_url`, a relative `avatar_image` gives the base,
   * exactly one "/" and the image path without its own leading "/" doubled:
   * the result always starts with the base followed by "/".
   */
  lemma RelativeAvatarImage(avatarUrl: Option<string>, image: string)
    requires !Truthy(avatarUrl) && image != "" && !StartsWith(image, "http")
    ensures var r := GetAvatarUrl(avatarUrl, Some(image)).value;
      && StartsWith(r, ApiBaseUrl + "/")
      && (StartsWith(image, "/") ==> r == ApiBaseUrl + image)
      && (!StartsWith(image, "/") ==> r == ApiBaseUrl + "/" + image)
  {
    var r := GetAvatarUrl(avatarUrl, Some(image)).value;
    var b := ApiBaseUrl + "/";
    if StartsWith(image, "/") {
      assert r == ApiBaseUrl + image;
      assert r[..|b|] == ApiBaseUrl + image[..1];
    } else {
      assert r == ApiBaseUrl + "/" + image;
      assert r[..|b|] == b;
    }
  }

  /** Absent and empty fields alike give no address. */
  lemma NoAvatar(avatarUrl: Option<string>, avatarImage: Option<string>)
    requires avatarUrl == None || avatarUrl == Some("")
    requires avatarImage == None || avatarImage == Some("")
    ensures GetAvatarUrl(avatarUrl, avatarImage) == None
  {
  }
}
