/**
 * The checks and lookups the commands make on a loaded configuration:
 * `_read_config`, `_read_line_user_id` and `_guess_media_type`.
 */
module ConfigLookup {
  import opened Basics
  import opened Text
  import opened Paths
  import opened ConfigDict
  import opened ConfigCodec
  import opened PyValues

  const TokenKey := "token"
  const MenuKey := "menu"
  const ImageKey := "image"
  const MenuMissingMessage := "Menu not defined. Please add menu = xxx.json in config.txt."
  const ImageMissingMessage := "Image not defined. Please add image = xxx in config.txt."

  /** What `_read_config` returns: the token and the menu and image paths resolved against the configuration's directory. */
  datatype Settings = Settings(token: string, menu: string, image: string, configDir: string)

  /**
   * `_read_config`. The derived directory and the token are read with `[]`, so
   * their absence raises `KeyError`; a missing menu or image raises the tool's
   * own message. The checks run in that order, so the first missing key decides
   * the error.
   */
  function ReadConfig(c: Dict): (r: Result<Settings, Error>)
    ensures r.Ok? <==> ConfigDirKey in Keys(c) && TokenKey in Keys(c) && MenuKey in Keys(c) && ImageKey in Keys(c)
    ensures r == Err(KeyError(ConfigDirKey)) <==> ConfigDirKey !in Keys(c)
    ensures r == Err(KeyError(TokenKey)) <==> ConfigDirKey in Keys(c) && TokenKey !in Keys(c)
    ensures r == Err(Raised(MenuMissingMessage)) <==>
      ConfigDirKey in Keys(c) && TokenKey in Keys(c) && MenuKey !in Keys(c)
    ensures r == Err(Raised(ImageMissingMessage)) <==>
      ConfigDirKey in Keys(c) && TokenKey in Keys(c) && MenuKey in Keys(c) && ImageKey !in Keys(c)
    ensures r.Ok? ==>
      var dir := Get(c, ConfigDirKey).value;
      && Some(r.value.token) == Get(c, TokenKey)
      && r.value.configDir == dir
      && r.value.menu == Join(dir, Get(c, MenuKey).value)
      && r.value.image == Join(dir, Get(c, ImageKey).value)
  {
    match Get(c, ConfigDirKey)
    case None => Err(KeyError(ConfigDirKey))
    case Some(dir) =>
      match Get(c, TokenKey)
      case None => Err(KeyError(TokenKey))
      case Some(token) =>
        match Get(c, MenuKey)
        case None => Err(Raised(MenuMissingMessage))
        case Some(menu) =>
          match Get(c, ImageKey)
          case None => Err(Raised(ImageMissingMessage))
          case Some(image) => Ok(Settings(token, Join(dir, menu), Join(dir, image), dir))
  }

  /** A loaded configuration always has its directory, so `_read_config` on it fails only for the token, the menu or the image. */
  lemma ReadConfigOnLoaded(configPath: string, normalized: string, lines: seq<string>)
    ensures var c := LoadConfig(configPath, normalized, Some(lines)).value;
      ReadConfig(c) != Err(KeyError(ConfigDirKey))
  {
    LoadedConfigHasSeed(configPath, normalized, lines);
    var c := LoadConfig(configPath, normalized, Some(lines)).value;
    assert [ConfigPathKey, ConfigDirKey][1] == Keys(c)[1];
  }

  function UnknownProfileMessage(profile: string): string {
    "Try to use profile " + profile + ", but profile." + profile + " doesn't exist in config."
  }

  /** `_read_line_user_id`: the value of `profile.<name>`, or an error naming the profile. */
  function ReadLineUserId(c: Dict, profile: string): (r: Result<string, Error>)
    ensures r.Ok? <==> "profile." + profile in Keys(c)
    ensures r.Ok? ==> Get(c, "profile." + profile) == Some(r.value)
    ensures r.Err? ==> r.error == Raised(UnknownProfileMessage(profile))
  {
    match Get(c, "profile." + profile)
    case None => Err(Raised(UnknownProfileMessage(profile)))
    case Some(userId) => Ok(userId)
  }

  /** `name` ends with `suffix` when both are compared in lower case; `suffix` is lower case. */
  predicate EndsWithIgnoringCase(name: string, suffix: string) {
    |suffix| <= |name| && forall i :: 0 <= i < |suffix| ==> LowerChar(name[|name| - |suffix| + i]) == suffix[i]
  }

  /** Ending with a suffix after lowering is the same as ending with it ignoring case. */
  lemma LowerEndsWith(name: string, suffix: string)
    ensures EndsWith(Lower(name), suffix) <==> EndsWithIgnoringCase(name, suffix)
  {
    var low := Lower(name);
    if |suffix| <= |name| {
      if EndsWith(low, suffix) {
        forall i | 0 <= i < |suffix| ensures LowerChar(name[|name| - |suffix| + i]) == suffix[i] {
          assert low[|low| - |suffix|..][i] == suffix[i];
        }
      }
      if EndsWithIgnoringCase(name, suffix) {
        assert low[|low| - |suffix|..] == suffix;
      }
    }
  }

  /**
   * `_guess_media_type`: the lower-cased name ending in `png` gives PNG,
   * otherwise one ending in `jpg` or `jpeg` gives JPEG, otherwise nothing.
   * No dot is needed before the suffix.
   */
  function GuessMediaType(filename: string): (r: Option<string>)
    ensures r == Some("image/png") <==> EndsWithIgnoringCase(filename, "png")
    ensures r == Some("image/jpeg") <==>
      !EndsWithIgnoringCase(filename, "png")
      && (EndsWithIgnoringCase(filename, "jpg") || EndsWithIgnoringCase(filename, "jpeg"))
    ensures r == None <==>
      !EndsWithIgnoringCase(filename, "png") && !EndsWithIgnoringCase(filename, "jpg")
      && !EndsWithIgnoringCase(filename, "jpeg")
  {
    LowerEndsWith(filename, "png");
    LowerEndsWith(filename, "jpg");
    LowerEndsWith(filename, "jpeg");
    if EndsWith(Lower(filename), "png") then Some("image/png")
    else if EndsWith(Lower(filename), "jpg") || EndsWith(Lower(filename), "jpeg") then Some("image/jpeg")
    else None
  }

  /** A PNG ending is recognised in any case, with or without a dot before it. */
  lemma GuessMediaTypePngExamples()
    ensures GuessMediaType("icon.PNG") == Some("image/png")
    ensures GuessMediaType("xpng") == Some("image/png")
  {
    assert EndsWithIgnoringCase("icon.PNG", "png") by {
      assert LowerChar('P') == 'p' && LowerChar('N') == 'n' && LowerChar('G') == 'g';
    }
    assert EndsWithIgnoringCase("xpng", "png");
  }

  /** Both JPEG endings are recognised, in any case. */
  lemma GuessMediaTypeJpegExamples()
    ensures GuessMediaType("photo.JPEG") == Some("image/jpeg")
    ensures GuessMediaType("photo.jpg") == Some("image/jpeg")
  {
    assert !EndsWithIgnoringCase("photo.JPEG", "png") by {
      assert LowerChar("photo.JPEG"[8]) != "png"[1];
    }
    assert EndsWithIgnoringCase("photo.JPEG", "jpeg") by {
      assert LowerChar('J') == 'j' && LowerChar('P') == 'p' && LowerChar('E') == 'e' && LowerChar('G') == 'g';
    }
    assert !EndsWithIgnoringCase("photo.jpg", "png") by {
      assert LowerChar("photo.jpg"[6]) != "png"[0];
    }
    assert EndsWithIgnoringCase("photo.jpg", "jpg");
  }

  /** Any other ending gives no media type. */
  lemma GuessMediaTypeOtherExample()
    ensures GuessMediaType("sound.wav") == None
  {
    assert !EndsWithIgnoringCase("sound.wav", "png") by {
      assert LowerChar("sound.wav"[6]) != "png"[0];
    }
    assert !EndsWithIgnoringCase("sound.wav", "jpg") by {
      assert LowerChar("sound.wav"[6]) != "jpg"[0];
    }
    assert !EndsWithIgnoringCase("sound.wav", "jpeg") by {
      assert LowerChar("sound.wav"[5]) != "jpeg"[0];
    }
  }
}
