/**
 * `Quaternion::Scene`: the output size, the clipping distances, the
 * background colour, the meshes and lights, the camera and the per-pixel
 * angle table. `preprocess(Scene&)` bakes the meshes in place.
 */
module Scenes {
  import opened Vectors
  import opened Outcomes
  import opened Types
  import opened Baking

  class Scene {
    var width: int
    var height: int
    var clipStart: real
    var clipEnd: real
    var background: Color
    var meshes: seq<Mesh>
    var lights: seq<Light>
    var cam: Camera
    var angleLimits: seq<AngleLimits>

    /**
     * `Scene()` in api.cpp: clipping between 0.01 and 1000, a (60, 60, 60)
     * background, 1920 by 1080 pixels; the vectors start empty and the
     * camera is `Camera()`.
     */
    constructor ()
      ensures clipStart == 0.01 && clipEnd == 1000.0
      ensures background == Color(60, 60, 60)
      ensures width == 1920 && height == 1080
      ensures meshes == [] && lights == [] && angleLimits == []
      ensures cam == NewCamera()
    {
      clipStart := 0.01;
      clipEnd := 1000.0;
      background := Color(60, 60, 60);
      width := 1920;
      height := 1080;
      meshes := [];
      lights := [];
      cam := NewCamera();
      angleLimits := [];
    }

    /**
     * `preprocess(Scene&)`: every mesh, in order, is baked by
     * `preprocess_mesh`; the camera step `preprocess_cam` does nothing, so
     * only the meshes change.
     */
    method Preprocess()
      modifies this`meshes
      ensures meshes == BakeAll(old(meshes))
      ensures cam == old(cam) && angleLimits == old(angleLimits)
    {
      var i := 0;
      while i < |meshes|
        invariant 0 <= i <= |meshes| == |old(meshes)|
        invariant forall k :: 0 <= k < i ==> meshes[k] == BakeMesh(old(meshes)[k])
        invariant forall k :: i <= k < |meshes| ==> meshes[k] == old(meshes)[k]
      {
        var baked := PreprocessMesh(meshes[i]);
        meshes := meshes[i := baked];
        i := i + 1;
      }
    }
  }
}
