/**
 * The texture cache (Include/core/texture_manager.hpp): a map from file path
 * to a shared Texture, so that a path is loaded at most once until it is
 * unloaded or the cache is cleared.
 */
module TextureManagers {

  /**
   * Texture (Include/core/texture.hpp): the GL name and the image size and
   * channel count that loadFromFile fills in. Decoding the file and creating
   * the GL texture are outside the model, so a new texture keeps its zeros.
   */
  class Texture {
    var textureID: int
    var width: int
    var height: int
    var channels: int

    constructor ()
      ensures textureID == 0 && width == 0 && height == 0 && channels == 0
    {
      textureID := 0;
      width := 0;
      height := 0;
      channels := 0;
    }
  }

  /** The cache after `path` is dropped: every other entry as it was. */
  function Without(textures: map<string, Texture>, path: string): (r: map<string, Texture>)
    ensures path !in r
    ensures forall p :: p != path ==> (p in r <==> p in textures)
    ensures forall p :: p in r ==> r[p] == textures[p]
    ensures path !in textures ==> r == textures
  {
    textures - {path}
  }

  /** Adding an entry for a new path and then dropping it gives back the cache. */
  lemma WithoutUndoesInsert(textures: map<string, Texture>, path: string, tex: Texture)
    requires path !in textures
    ensures Without(textures[path := tex], path) == textures
  {
  }

  class TextureManager {
    var textures: map<string, Texture>

    constructor ()
      ensures textures == map[]
    {
      textures := map[];
    }

    /**
     * TextureManager::load. A cached path returns the cached texture and
     * leaves the map alone. A new path gets a new texture, which is cached
     * and returned whether or not its file loads (the result of
     * loadFromFile is not looked at).
     */
    method Load(path: string) returns (tex: Texture)
      modifies this`textures
      ensures path in old(textures) ==> tex == old(textures)[path] && textures == old(textures)
      ensures path !in old(textures) ==> fresh(tex) && textures == old(textures)[path := tex]
      ensures path in textures && textures[path] == tex
      ensures textures.Keys == old(textures).Keys + {path}
    {
      if path in textures {
        return textures[path];
      }
      tex := new Texture();
      textures := textures[path := tex];
    }

    /** TextureManager::unload: only the entry for `path` goes; an absent path changes nothing. */
    method Unload(path: string)
      modifies this`textures
      ensures textures == Without(old(textures), path)
    {
      textures := textures - {path};
    }

    /** TextureManager::clear. */
    method Clear()
      modifies this`textures
      ensures textures == map[]
    {
      textures := map[];
    }
  }

  /** Two loads of one path hand out the very same texture, and the second adds nothing. */
  method LoadTwice(manager: TextureManager, path: string) returns (first: Texture, second: Texture)
    modifies manager
    ensures first == second
    ensures manager.textures == old(manager.textures)[path := first]
    ensures path in old(manager.textures) ==> first == old(manager.textures)[path]
  {
    first := manager.Load(path);
    second := manager.Load(path);
  }

  /** Unloading a path makes the next load of it create a new texture. */
  method ReloadAfterUnload(manager: TextureManager, path: string) returns (before: Texture, after: Texture)
    modifies manager
    ensures fresh(after) && before != after
    ensures manager.textures == old(manager.textures)[path := after]
  {
    before := manager.Load(path);
    manager.Unload(path);
    after := manager.Load(path);
  }
}
